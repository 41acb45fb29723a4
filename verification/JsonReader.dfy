/**
 * A JSON reader (RFC 8259) for canonical text, and what it shows about the
 * printer: printing loses exactly what the normal form drops, nothing more.
 */
module JsonReader {
  import opened Text
  import opened JsonText
  import opened CanonicalJson

  // ---------------------------------------------------------------- the normal form

  /**
   * What a printed value stands for: an overflowed number is null and, under
   * signed content, a compact JWS is its tagged signing input and an
   * envelope's signature is gone.
   */
  ghost function Normal(v: Json, mode: Mode): Json
    decreases v, 0
  {
    match v
    case Overflow => Null
    case Text(s) => Text(Content(s, mode))
    case Arr(items) => Arr(NormalItems(items, mode))
    case Obj(fields) => Obj(map k | k in Kept(fields, mode) :: Normal(fields[k], mode))
    case _ => v
  }

  ghost function NormalItems(items: seq<Json>, mode: Mode): (r: seq<Json>)
    ensures |r| == |items|
    ensures forall i | 0 <= i < |items| :: r[i] == Normal(items[i], mode)
    decreases items, 0
  {
    if items == [] then [] else [Normal(items[0], mode)] + NormalItems(items[1..], mode)
  }

  // ---------------------------------------------------------------- the reader

  /** Length of the longest run of number characters. */
  function Span(s: Str): (n: nat)
    ensures n <= |s| && forall i | 0 <= i < n :: IsNumberUnit(s[i])
    ensures n < |s| ==> !IsNumberUnit(s[n])
  {
    if s == [] || !IsNumberUnit(s[0]) then 0
    else
      var n := Span(s[1..]);
      assert forall i | 0 < i < n + 1 :: s[i] == s[1..][i - 1];
      n + 1
  }

  function Parse(s: Str): (r: Option<(Json, Str)>)
    ensures r.Some? ==> |r.value.1| < |s|
    decreases |s|, 0
  {
    if s == [] then None
    else if s[0] == QUOTE then
      match Unquote(s[1..])
      case Some((t, rest)) => Some((Text(t), rest))
      case None => None
    else if s[0] == OPEN_BRACKET then
      if |s| > 1 && s[1] == CLOSE_BRACKET then Some((Arr([]), s[2..]))
      else
        match ParseItems(s[1..])
        case Some((items, rest)) => Some((Arr(items), rest))
        case None => None
    else if s[0] == OPEN_BRACE then
      if |s| > 1 && s[1] == CLOSE_BRACE then Some((Obj(map[]), s[2..]))
      else
        match ParseMembers(s[1..])
        case Some((fields, rest)) => Some((Obj(fields), rest))
        case None => None
    else if IsNumberUnit(s[0]) then
      var n := Span(s);
      Some((Num(s[..n]), s[n..]))
    else if NULL_TEXT <= s then Some((Null, s[4..]))
    else if TRUE_TEXT <= s then Some((Bool(true), s[4..]))
    else if FALSE_TEXT <= s then Some((Bool(false), s[5..]))
    else None
  }

  function ParseItems(s: Str): (r: Option<(seq<Json>, Str)>)
    ensures r.Some? ==> |r.value.1| < |s|
    decreases |s|, 1
  {
    match Parse(s)
    case None => None
    case Some((v, rest)) =>
      if rest == [] then None
      else if rest[0] == CLOSE_BRACKET then Some(([v], rest[1..]))
      else if rest[0] != COMMA then None
      else
        match ParseItems(rest[1..])
        case None => None
        case Some((vs, after)) => Some(([v] + vs, after))
  }

  /** One `"key":value`. */
  function ParseMember(s: Str): (r: Option<((Str, Json), Str)>)
    ensures r.Some? ==> |r.value.1| < |s|
    decreases |s|, 1
  {
    if s == [] || s[0] != QUOTE then None
    else
      match Unquote(s[1..])
      case None => None
      case Some((k, rest)) =>
        if rest == [] || rest[0] != COLON then None
        else
          match Parse(rest[1..])
          case None => None
          case Some((v, after)) => Some(((k, v), after))
  }

  /** A key given twice keeps its last value. */
  function ParseMembers(s: Str): (r: Option<(map<Str, Json>, Str)>)
    ensures r.Some? ==> |r.value.1| < |s|
    decreases |s|, 2
  {
    match ParseMember(s)
    case None => None
    case Some(((k, v), rest)) =>
      if rest == [] then None
      else if rest[0] == CLOSE_BRACE then Some((map[k := v], rest[1..]))
      else if rest[0] != COMMA then None
      else
        match ParseMembers(rest[1..])
        case None => None
        case Some((fields, after)) => Some((map[k := v] + fields, after))
  }

  // ---------------------------------------------------------------- round trip

  predicate Delimited(rest: Str) { rest == [] || !IsNumberUnit(rest[0]) }

  lemma ParseText(t: Str, rest: Str)
    ensures Parse(Quote(t) + rest) == Some((Text(t), rest))
  {
    UnquoteEscape(t, 0, rest);
    assert (Quote(t) + rest)[1..] == Escape(t) + ([QUOTE] + rest);
  }

  lemma {:induction false} SpanNumeral(n: Str, rest: Str)
    requires forall i | 0 <= i < |n| :: IsNumberUnit(n[i])
    requires Delimited(rest)
    ensures Span(n + rest) == |n|
  {
    if n == [] {
      assert n + rest == rest;
    } else {
      assert (n + rest)[1..] == n[1..] + rest;
      SpanNumeral(n[1..], rest);
    }
  }

  lemma ParseLeaf(v: Json, mode: Mode, rest: Str)
    requires !v.IsObject() && Delimited(rest)
    ensures Parse(Leaf(v, mode) + rest) == Some((Normal(v, mode), rest))
  {
    var s := Leaf(v, mode) + rest;
    match v
    case Text(t) => ParseText(Content(t, mode), rest);
    case Num(n) =>
      SpanNumeral(n, rest);
      assert s[..|n|] == n && s[|n|..] == rest;
    case Null => assert s[4..] == rest;
    case Overflow => assert s[4..] == rest;
    case Bool(b) =>
      assert s[if b then 4 else 5..] == rest;
      if !b { assert s[0] == 0x66; }
  }

  lemma ParseArray(body: Str, items: seq<Json>, rest: Str)
    requires body != [] && body[0] != CLOSE_BRACKET && ParseItems(body) == Some((items, rest))
    ensures Parse([OPEN_BRACKET] + body) == Some((Arr(items), rest))
  {
    assert ([OPEN_BRACKET] + body)[1..] == body;
  }

  lemma ParseObject(body: Str, fields: map<Str, Json>, rest: Str)
    requires body != [] && body[0] != CLOSE_BRACE && ParseMembers(body) == Some((fields, rest))
    ensures Parse([OPEN_BRACE] + body) == Some((Obj(fields), rest))
  {
    assert ([OPEN_BRACE] + body)[1..] == body;
  }

  /** One element in front of its separator. */
  lemma ParseItemsStep(code: Str, v: Json, sep: Unit, tail: Str)
    requires Parse(code + ([sep] + tail)) == Some((v, [sep] + tail))
    ensures sep == CLOSE_BRACKET ==> ParseItems(code + ([sep] + tail)) == Some(([v], tail))
    ensures sep == COMMA && ParseItems(tail).Some? ==>
            ParseItems(code + ([sep] + tail)) == Some(([v] + ParseItems(tail).value.0, ParseItems(tail).value.1))
  {
    assert ([sep] + tail)[1..] == tail;
  }

  lemma ParseMemberStep(k: Str, code: Str, v: Json, rest: Str)
    requires Parse(code + rest) == Some((v, rest))
    ensures ParseMember(Quote(k) + ([COLON] + code) + rest) == Some(((k, v), rest))
  {
    hide Parse, Unquote, Escape;
    var after := [COLON] + (code + rest);
    UnquoteEscape(k, 0, after);
    var s := [QUOTE] + (Escape(k) + ([QUOTE] + after));
    assert Quote(k) + ([COLON] + code) + rest == s;
    assert s[1..] == Escape(k) + ([QUOTE] + after);
    assert after[1..] == code + rest;
  }

  lemma ParseMembersStep(code: Str, k: Str, v: Json, sep: Unit, tail: Str)
    requires ParseMember(code + ([sep] + tail)) == Some(((k, v), [sep] + tail))
    ensures sep == CLOSE_BRACE ==> ParseMembers(code + ([sep] + tail)) == Some((map[k := v], tail))
    ensures sep == COMMA && ParseMembers(tail).Some? ==>
            ParseMembers(code + ([sep] + tail)) ==
            Some((map[k := v] + ParseMembers(tail).value.0, ParseMembers(tail).value.1))
  {
    hide ParseMember;
    assert ([sep] + tail)[1..] == tail;
  }

  /**
   * The reader recovers the normal form of any value from its canonical text,
   * whatever follows the text.
   */
  lemma {:induction false} RoundTrip(v: Json, mode: Mode, rest: Str)
    requires Delimited(rest)
    ensures Parse(Print(v, mode) + rest) == Some((Normal(v, mode), rest))
    decreases v, 1, 0
  {
    hide Print, PrintItems, PrintMembers, Join, Ordered, Parse, ParseItems, ParseMembers, Leaf, Normal;
    PrintShape(v, mode);
    NormalShape(v, mode);
    if !v.IsObject() {
      ParseLeaf(v, mode, rest);
    } else if v.Arr? {
      RoundTripItems(v.items, mode, rest);
      var body := Join(PrintItems(v.items, mode));
      assert Print(v, mode) + rest == [OPEN_BRACKET] + (body + ([CLOSE_BRACKET] + rest));
      if v.items == [] {
        EmptyContainers(rest);
        assert NormalItems(v.items, mode) == [];
        assert PrintItems(v.items, mode) == [];
        assert body + ([CLOSE_BRACKET] + rest) == [CLOSE_BRACKET] + rest;
      } else {
        JoinHead(PrintItems(v.items, mode));
        PrintHead(v.items[0], mode);
        ParseArray(body + ([CLOSE_BRACKET] + rest), NormalItems(v.items, mode), rest);
      }
    } else {
      var ks := Ordered(Kept(v.fields, mode));
      RoundTripMembers(v, ks, mode, rest);
      var body := Join(PrintMembers(v, ks, mode));
      assert Print(v, mode) + rest == [OPEN_BRACE] + (body + ([CLOSE_BRACE] + rest));
      assert forall k :: k in ks <==> k in Elems(ks);
      if ks == [] {
        EmptyContainers(rest);
        assert PrintMembers(v, ks, mode) == [];
        assert body + ([CLOSE_BRACE] + rest) == [CLOSE_BRACE] + rest;
      } else {
        JoinHead(PrintMembers(v, ks, mode));
        ParseObject(body + ([CLOSE_BRACE] + rest), NormalMembers(v, ks, mode), rest);
      }
    }
  }

  ghost function NormalMembers(v: Json, ks: seq<Str>, mode: Mode): map<Str, Json>
    requires v.Obj? && forall k | k in ks :: k in v.fields
  {
    map k | k in ks :: Normal(v.fields[k], mode)
  }

  lemma NormalShape(v: Json, mode: Mode)
    ensures v.Arr? ==> Normal(v, mode) == Arr(NormalItems(v.items, mode))
    ensures v.Obj? ==> Normal(v, mode) == Obj(NormalMembers(v, Ordered(Kept(v.fields, mode)), mode))
  {
    if v.Obj? {
      var ks := Ordered(Kept(v.fields, mode));
      assert forall k :: k in ks <==> k in Elems(ks);
    }
  }

  lemma EmptyContainers(rest: Str)
    ensures Join([]) == []
    ensures Parse([OPEN_BRACKET] + ([CLOSE_BRACKET] + rest)) == Some((Arr([]), rest))
    ensures Parse([OPEN_BRACE] + ([CLOSE_BRACE] + rest)) == Some((Obj(map[]), rest))
  {
    assert ([OPEN_BRACKET] + ([CLOSE_BRACKET] + rest))[2..] == rest;
    assert ([OPEN_BRACE] + ([CLOSE_BRACE] + rest))[2..] == rest;
  }

  lemma JoinHead(parts: seq<Str>)
    requires parts != [] && parts[0] != []
    ensures Join(parts) != [] && Join(parts)[0] == parts[0][0]
  {
  }

  lemma PrintHead(v: Json, mode: Mode)
    ensures Print(v, mode)[0] != CLOSE_BRACKET
  {
  }

  lemma JoinCons(parts: seq<Str>, tail: Str)
    requires parts != []
    ensures |parts| == 1 ==> Join(parts) + tail == parts[0] + tail
    ensures |parts| > 1 ==> Join(parts) + tail == parts[0] + ([COMMA] + (Join(parts[1..]) + tail))
  {
    if |parts| > 1 {
      Regroup(parts[0], [COMMA], Join(parts[1..]), tail);
    }
  }

  lemma Regroup(a: Str, b: Str, c: Str, d: Str)
    ensures a + (b + c) + d == a + (b + (c + d))
  {
  }

  lemma {:induction false} RoundTripItems(items: seq<Json>, mode: Mode, rest: Str)
    ensures items != [] ==>
            ParseItems(Join(PrintItems(items, mode)) + ([CLOSE_BRACKET] + rest)) ==
            Some((NormalItems(items, mode), rest))
    decreases items, 0, 0
  {
    hide Print, PrintItems, Join, Parse, ParseItems, Normal;
    if items != [] {
      var parts := PrintItems(items, mode);
      var tail := [CLOSE_BRACKET] + rest;
      JoinCons(parts, tail);
      if |items| == 1 {
        RoundTrip(items[0], mode, tail);
        ParseItemsStep(parts[0], Normal(items[0], mode), CLOSE_BRACKET, rest);
        assert NormalItems(items, mode) == [Normal(items[0], mode)];
      } else {
        RoundTripItems(items[1..], mode, rest);
        assert parts[1..] == PrintItems(items[1..], mode);
        var more := Join(parts[1..]) + tail;
        RoundTrip(items[0], mode, [COMMA] + more);
        ParseItemsStep(parts[0], Normal(items[0], mode), COMMA, more);
      }
    }
  }

  lemma {:induction false} RoundTripMembers(v: Json, ks: seq<Str>, mode: Mode, rest: Str)
    requires v.Obj? && Ascending(ks) && forall k | k in ks :: k in v.fields
    ensures ks != [] ==>
            ParseMembers(Join(PrintMembers(v, ks, mode)) + ([CLOSE_BRACE] + rest)) ==
            Some((NormalMembers(v, ks, mode), rest))
    decreases v, 0, |ks|
  {
    hide Print, PrintMembers, Join, Parse, ParseMembers, ParseMember, Normal, Quote;
    if ks != [] {
      var parts := PrintMembers(v, ks, mode);
      var tail := [CLOSE_BRACE] + rest;
      var k, field := ks[0], v.fields[ks[0]];
      JoinCons(parts, tail);
      if |ks| == 1 {
        RoundTrip(field, mode, tail);
        ParseMemberStep(k, Print(field, mode), Normal(field, mode), tail);
        ParseMembersStep(parts[0], k, Normal(field, mode), CLOSE_BRACE, rest);
        NormalMembersCons(v, ks, mode);
      } else {
        RoundTripMembers(v, ks[1..], mode, rest);
        assert parts[1..] == PrintMembers(v, ks[1..], mode);
        var more := Join(parts[1..]) + tail;
        RoundTrip(field, mode, [COMMA] + more);
        ParseMemberStep(k, Print(field, mode), Normal(field, mode), [COMMA] + more);
        ParseMembersStep(parts[0], k, Normal(field, mode), COMMA, more);
        NormalMembersCons(v, ks, mode);
      }
    }
  }

  lemma NormalMembersCons(v: Json, ks: seq<Str>, mode: Mode)
    requires v.Obj? && Ascending(ks) && ks != [] && forall k | k in ks :: k in v.fields
    ensures NormalMembers(v, ks, mode) ==
            map[ks[0] := Normal(v.fields[ks[0]], mode)] + NormalMembers(v, ks[1..], mode)
    ensures |ks| == 1 ==> NormalMembers(v, ks, mode) == map[ks[0] := Normal(v.fields[ks[0]], mode)]
  {
    hide Normal;
    LessIsTotal(ks[0], ks[0]);
  }
}
