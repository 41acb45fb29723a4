/** Content-derived event ids (recipe v2): when two reported events are the same event. */
module EventId {
  import opened Text
  import opened JsonText
  import opened CanonicalJson
  import opened JsonReader
  import opened Utf8

  // ---------------------------------------------------------------- the normal form is what is printed

  /** Text before the first dot is untouched by the split. */
  lemma {:induction false} SplitPrefix(p: Str, s: Str)
    requires DOT !in p
    ensures Split(p + s)[0] == p + Split(s)[0]
  {
    if p == [] {
      assert p + s == s;
    } else {
      assert (p + s)[1..] == p[1..] + s;
      SplitPrefix(p[1..], s);
    }
  }

  /** A tagged signing input is not itself a compact JWS. */
  lemma ContentIdempotent(s: Str, mode: Mode)
    ensures Content(Content(s, mode), mode) == Content(s, mode)
  {
    if mode.SignedContent? && JwsSigningInput(s, mode.isHeader).Some? {
      var input := JwsSigningInput(s, mode.isHeader).value;
      SplitPrefix(JWS_TAG, input);
      assert Split(JWS_TAG + input)[0][17] == COLON;
    }
  }

  /** Which keys an object keeps does not change when its members are normalised. */
  lemma KeptNormal(v: Json, mode: Mode)
    requires v.Obj?
    ensures Normal(v, mode).fields.Keys == Kept(v.fields, mode)
    ensures Kept(Normal(v, mode).fields, Verbatim) == Kept(v.fields, mode)
    ensures Kept(Normal(v, mode).fields, mode) == Kept(v.fields, mode)
  {
    var n := Normal(v, mode).fields;
    forall k | k in n ensures n[k].Text? == v.fields[k].Text? && n[k].IsObject() == v.fields[k].IsObject() {
      assert n[k] == Normal(v.fields[k], mode);
    }
    assert MANIFEST != SIGNATURE && REVOCATION_LIST != SIGNATURE by {
      assert |MANIFEST| == 8 && |SIGNATURE| == 9 && |REVOCATION_LIST| == 15;
    }
    assert MANIFEST in n <==> MANIFEST in v.fields;
    assert REVOCATION_LIST in n <==> REVOCATION_LIST in v.fields;
  }

  lemma NormalLeaf(v: Json, mode: Mode)
    requires !v.IsObject()
    ensures !Normal(v, mode).IsObject() && Leaf(Normal(v, mode), Verbatim) == Leaf(v, mode)
  {
  }

  /** Printing with signed content is plain printing of the normal form. */
  lemma {:induction false} PrintNormal(v: Json, mode: Mode)
    ensures Print(Normal(v, mode), Verbatim) == Print(v, mode)
    decreases v
  {
    hide Print, PrintItems, PrintMembers, Join, Ordered, Normal, NormalItems;
    PrintShape(v, mode);
    PrintShape(Normal(v, mode), Verbatim);
    NormalShape(v, mode);
    if v.Arr? {
      var n := NormalItems(v.items, mode);
      forall i | 0 <= i < |v.items| ensures Print(n[i], Verbatim) == Print(v.items[i], mode) {
        PrintNormal(v.items[i], mode);
      }
      assert PrintItems(n, Verbatim) == PrintItems(v.items, mode);
    } else if v.Obj? {
      KeptNormal(v, mode);
      var ks := Ordered(Kept(v.fields, mode));
      forall k | k in ks ensures Print(Normal(v, mode).fields[k], Verbatim) == Print(v.fields[k], mode) {
        PrintNormal(v.fields[k], mode);
      }
      assert PrintMembers(Normal(v, mode), ks, Verbatim) == PrintMembers(v, ks, mode);
    } else {
      NormalLeaf(v, mode);
    }
  }

  lemma {:induction false} NormalIdempotent(v: Json, mode: Mode)
    ensures Normal(Normal(v, mode), mode) == Normal(v, mode)
    decreases v
  {
    if v.Arr? {
      forall i | 0 <= i < |v.items| ensures Normal(Normal(v.items[i], mode), mode) == Normal(v.items[i], mode) {
        NormalIdempotent(v.items[i], mode);
      }
      assert NormalItems(NormalItems(v.items, mode), mode) == NormalItems(v.items, mode);
    } else if v.Obj? {
      KeptNormal(v, mode);
      forall k | k in Kept(v.fields, mode)
        ensures Normal(Normal(v.fields[k], mode), mode) == Normal(v.fields[k], mode)
      {
        NormalIdempotent(v.fields[k], mode);
      }
      assert Normal(Normal(v, mode), mode).fields == Normal(v, mode).fields;
    } else if v.Text? {
      ContentIdempotent(v.s, mode);
    }
  }

  /** Two values print alike exactly when their normal forms are equal. */
  lemma PrintsAlike(v: Json, w: Json, mode: Mode)
    ensures Print(v, mode) == Print(w, mode) <==> Normal(v, mode) == Normal(w, mode)
  {
    PrintNormal(v, mode);
    PrintNormal(w, mode);
    RoundTrip(v, mode, []);
    RoundTrip(w, mode, []);
    assert Print(v, mode) + [] == Print(v, mode);
    assert Print(w, mode) + [] == Print(w, mode);
  }

  ghost predicate Finite(v: Json)
    decreases v
  {
    match v
    case Overflow => false
    case Arr(items) => forall i | 0 <= i < |items| :: Finite(items[i])
    case Obj(fields) => forall k | k in fields :: Finite(fields[k])
    case _ => true
  }

  lemma {:induction false} VerbatimKeepsFinite(v: Json)
    ensures Normal(v, Verbatim) == v <==> Finite(v)
    decreases v
  {
    if v.Arr? {
      forall i | 0 <= i < |v.items| ensures Normal(v.items[i], Verbatim) == v.items[i] <==> Finite(v.items[i]) {
        VerbatimKeepsFinite(v.items[i]);
      }
      var n := NormalItems(v.items, Verbatim);
      assert n == v.items <==> forall i | 0 <= i < |v.items| :: n[i] == v.items[i];
    } else if v.Obj? {
      forall k | k in v.fields ensures Normal(v.fields[k], Verbatim) == v.fields[k] <==> Finite(v.fields[k]) {
        VerbatimKeepsFinite(v.fields[k]);
      }
      var n := Normal(v, Verbatim).fields;
      assert n.Keys == v.fields.Keys;
      assert n == v.fields <==> forall k | k in v.fields :: n[k] == v.fields[k];
    }
  }

  /** Without signed content and without overflowed numbers, the text determines the value. */
  lemma Unambiguous(v: Json, w: Json)
    requires Finite(v) && Finite(w)
    ensures Print(v, Verbatim) == Print(w, Verbatim) <==> v == w
  {
    PrintsAlike(v, w, Verbatim);
    VerbatimKeepsFinite(v);
    VerbatimKeepsFinite(w);
  }

  /** The finiteness hypothesis is needed: `{"x":1e999}` prints like `{"x":null}`. */
  lemma OverflowCollides(x: Str)
    ensures Obj(map[x := Overflow]) != Obj(map[x := Null])
    ensures Print(Obj(map[x := Overflow]), Verbatim) == Print(Obj(map[x := Null]), Verbatim)
  {
    var v, w := Obj(map[x := Overflow]), Obj(map[x := Null]);
    assert Kept(v.fields, Verbatim) == Kept(w.fields, Verbatim) == {x};
    assert v.fields[x] != w.fields[x];
    assert Normal(Overflow, Verbatim) == Null && Normal(Null, Verbatim) == Null;
    assert Normal(v, Verbatim) == Normal(w, Verbatim) by {
      assert Normal(v, Verbatim).fields == map[x := Null] == Normal(w, Verbatim).fields;
    }
    PrintsAlike(v, w, Verbatim);
  }

  // ---------------------------------------------------------------- the id

  /** "aitp-event:v2" */
  const RECIPE_TAG: Str := [0x61, 0x69, 0x74, 0x70, 0x2D, 0x65, 0x76, 0x65, 0x6E, 0x74, 0x3A, 0x76, 0x32]

  /** A bearer-token fingerprint: "apikey:" and hexadecimal digits. */
  type ProducerKey = k: Str | forall i | 0 <= i < |k| :: k[i] < 0x80 witness []

  /** `producerKey ?? ''` */
  function KeyText(producer: Option<ProducerKey>): Str {
    match producer
    case Some(k) => k
    case None => []
  }

  /** The same producer; an empty fingerprint counts as none. */
  predicate SameProducer(p: Option<ProducerKey>, q: Option<ProducerKey>) {
    p == q || ((p.None? || p.value == []) && (q.None? || q.value == []))
  }

  lemma SameKeyText(p: Option<ProducerKey>, q: Option<ProducerKey>)
    ensures KeyText(p) == KeyText(q) <==> SameProducer(p, q)
  {
  }

  /** What the first update of the hash takes. */
  function Prefix(producer: Option<ProducerKey>): Str { RECIPE_TAG + [0] + KeyText(producer) + [0] }

  /** The bytes that are hashed, in two updates. */
  ghost function HashInput(raw: Json, producer: Option<ProducerKey>, isHeader: Str -> bool): seq<Byte> {
    Encode(Prefix(producer)) + Encode(Print(raw, SignedContent(isHeader)))
  }

  /**
   * `eventIdFor`. `digest` is SHA-256 cut to a version-8 UUID (section 5.8 of
   * RFC 9562), `random` the id drawn when the event has no usable timestamp.
   */
  ghost function EventIdFor<Id>(
    raw: Json, producer: Option<ProducerKey>, hasTimestamp: bool, random: Id, digest: seq<Byte> -> Id,
    isHeader: Str -> bool): Id
  {
    if !hasTimestamp then random else digest(HashInput(raw, producer, isHeader))
  }

  predicate NoNul(s: Str) { forall i | 0 <= i < |s| :: s[i] != 0 }

  lemma {:induction false} EscapeNoNul(s: Str, i: nat)
    requires i <= |s|
    ensures NoNul(Escape(s, i))
    decreases |s| - i
  {
    if i < |s| {
      EscapeNoNul(s, i + 1);
    }
  }

  lemma {:induction false} JoinNoNul(parts: seq<Str>)
    requires forall i | 0 <= i < |parts| :: NoNul(parts[i])
    ensures NoNul(Join(parts))
  {
    if |parts| > 1 {
      JoinNoNul(parts[1..]);
    }
  }

  /** Canonical text never contains U+0000, whatever the strings in the value contain. */
  lemma {:induction false} PrintNoNul(v: Json, mode: Mode)
    ensures NoNul(Print(v, mode))
    decreases v
  {
    hide Print, PrintItems, PrintMembers, Join, Ordered, Escape;
    PrintShape(v, mode);
    match v
    case Text(s) => EscapeNoNul(Content(s, mode), 0);
    case Arr(items) =>
      forall i | 0 <= i < |items| ensures NoNul(Print(items[i], mode)) { PrintNoNul(items[i], mode); }
      JoinNoNul(PrintItems(items, mode));
    case Obj(fields) =>
      var ks := Ordered(Kept(fields, mode));
      forall i | 0 <= i < |ks| ensures NoNul(PrintMembers(v, ks, mode)[i]) {
        assert ks[i] in ks;
        PrintNoNul(fields[ks[i]], mode);
        EscapeNoNul(ks[i], 0);
      }
      JoinNoNul(PrintMembers(v, ks, mode));
    case _ =>
  }

  lemma {:induction false} JoinWellFormed(parts: seq<Str>)
    requires forall i | 0 <= i < |parts| :: WellFormed(parts[i])
    ensures WellFormed(Join(parts))
  {
    if |parts| > 1 {
      JoinWellFormed(parts[1..]);
      Concatenates([COMMA], Join(parts[1..]));
      Concatenates(parts[0], [COMMA] + Join(parts[1..]));
    }
  }

  lemma WrapWellFormed(open: Unit, inner: Str, close: Unit)
    requires WellFormed(inner) && open < 0x80 && close < 0x80
    ensures WellFormed([open] + (inner + [close]))
  {
    Concatenates(inner, [close]);
    Concatenates([open], inner + [close]);
  }

  lemma QuoteWellFormed(s: Str)
    ensures WellFormed(Quote(s))
  {
    EscapeWellFormed(s, 0);
    WrapWellFormed(QUOTE, Escape(s), QUOTE);
  }

  lemma LeafWellFormed(v: Json, mode: Mode)
    requires !v.IsObject()
    ensures WellFormed(Leaf(v, mode))
  {
    hide Quote, Content;
    if v.Text? {
      QuoteWellFormed(Content(v.s, mode));
    } else {
      PlainIsWellFormed(Leaf(v, mode));
    }
  }

  /** Canonical text never contains a lone surrogate, so its UTF-8 loses nothing. */
  lemma {:induction false} PrintWellFormed(v: Json, mode: Mode)
    ensures WellFormed(Print(v, mode))
    decreases v
  {
    hide Print, PrintItems, PrintMembers, Join, Ordered, Quote, WellFormed;
    PrintShape(v, mode);
    match v
    case Arr(items) =>
      forall i | 0 <= i < |items| ensures WellFormed(Print(items[i], mode)) { PrintWellFormed(items[i], mode); }
      JoinWellFormed(PrintItems(items, mode));
      WrapWellFormed(OPEN_BRACKET, Join(PrintItems(items, mode)), CLOSE_BRACKET);
    case Obj(fields) =>
      var ks := Ordered(Kept(fields, mode));
      forall i | 0 <= i < |ks| ensures WellFormed(PrintMembers(v, ks, mode)[i]) {
        assert ks[i] in ks;
        PrintWellFormed(fields[ks[i]], mode);
        MemberWellFormed(ks[i], Print(fields[ks[i]], mode));
      }
      JoinWellFormed(PrintMembers(v, ks, mode));
      WrapWellFormed(OPEN_BRACE, Join(PrintMembers(v, ks, mode)), CLOSE_BRACE);
    case _ => LeafWellFormed(v, mode);
  }

  lemma MemberWellFormed(k: Str, text: Str)
    requires WellFormed(text)
    ensures WellFormed(Quote(k) + ([COLON] + text))
  {
    QuoteWellFormed(k);
    Concatenates([COLON], text);
    Concatenates(Quote(k), [COLON] + text);
  }

  /** The last NUL is the separator, so both sides of it are determined. */
  lemma LastNulSeparates(a: Str, x: Str, b: Str, y: Str)
    requires NoNul(x) && NoNul(y)
    requires a + [0] + x == b + [0] + y
    ensures a == b && x == y
  {
    var s := a + [0] + x;
    assert s[|a|] == 0 && s[|b|] == 0;
    assert forall i | |a| < i < |s| :: s[i] == x[i - |a| - 1] && s[i] != 0;
    assert forall i | |b| < i < |s| :: s[i] == y[i - |b| - 1] && s[i] != 0;
    assert a == s[..|a|] && b == s[..|b|];
    assert x == s[|a| + 1..] && y == s[|b| + 1..];
  }

  /** The hashed bytes determine the producer and the canonical text. */
  lemma HashInputIff(v: Json, w: Json, p: Option<ProducerKey>, q: Option<ProducerKey>, isHeader: Str -> bool)
    ensures HashInput(v, p, isHeader) == HashInput(w, q, isHeader) <==>
            SameProducer(p, q) && Print(v, SignedContent(isHeader)) == Print(w, SignedContent(isHeader))
  {
    SameKeyText(p, q);
    hide SameProducer;
    var x, y := Print(v, SignedContent(isHeader)), Print(w, SignedContent(isHeader));
    PrefixText(p, x);
    PrefixText(q, y);
    PrintNoNul(v, SignedContent(isHeader));
    PrintNoNul(w, SignedContent(isHeader));
    PrintWellFormed(v, SignedContent(isHeader));
    PrintWellFormed(w, SignedContent(isHeader));
    var a, b := RECIPE_TAG + [0] + KeyText(p), RECIPE_TAG + [0] + KeyText(q);
    EncodeAppend(Prefix(p), x);
    EncodeAppend(Prefix(q), y);
    if HashInput(v, p, isHeader) == HashInput(w, q, isHeader) {
      Concatenates(Prefix(p), x);
      Concatenates(Prefix(q), y);
      EncodeInjective(Prefix(p) + x, Prefix(q) + y);
      LastNulSeparates(a, x, b, y);
      assert KeyText(p) == a[14..] && KeyText(q) == b[14..];
    }
  }

  lemma PrefixText(p: Option<ProducerKey>, text: Str)
    ensures WellFormed(Prefix(p))
    ensures Prefix(p) + text == (RECIPE_TAG + [0] + KeyText(p)) + [0] + text
  {
    PlainIsWellFormed(Prefix(p));
  }

  /**
   * Two events with usable timestamps, hashed without collision, get the same
   * id exactly when the producer and the signed-content normal form agree.
   */
  lemma SameIdIffSameEvent<Id>(
    v: Json, w: Json, p: Option<ProducerKey>, q: Option<ProducerKey>, rv: Id, rw: Id, digest: seq<Byte> -> Id,
    isHeader: Str -> bool)
    requires digest(HashInput(v, p, isHeader)) == digest(HashInput(w, q, isHeader)) ==>
               HashInput(v, p, isHeader) == HashInput(w, q, isHeader)
    ensures EventIdFor(v, p, true, rv, digest, isHeader) == EventIdFor(w, q, true, rw, digest, isHeader) <==>
            SameProducer(p, q) && Normal(v, SignedContent(isHeader)) == Normal(w, SignedContent(isHeader))
  {
    PrintsAlike(v, w, SignedContent(isHeader));
    HashInputIff(v, w, p, q, isHeader);
    hide HashInput, Print, Normal, SameProducer;
  }

  /** Events without a usable timestamp keep the ids drawn for them, whatever they hold. */
  lemma UntimedIdsAreDrawn<Id>(
    v: Json, w: Json, p: Option<ProducerKey>, q: Option<ProducerKey>, rv: Id, rw: Id, digest: seq<Byte> -> Id,
    isHeader: Str -> bool)
    ensures EventIdFor(v, p, false, rv, digest, isHeader) == EventIdFor(w, q, false, rw, digest, isHeader) <==> rv == rw
  {
  }

  /** A literal string equal to a tagged signing input is identified with the JWS it imitates. */
  lemma TaggedTextCollides(s: Str, isHeader: Str -> bool)
    requires JwsSigningInput(s, isHeader).Some?
    ensures var mode := SignedContent(isHeader);
            var imitation := JWS_TAG + JwsSigningInput(s, isHeader).value;
            imitation != s && Print(Text(imitation), mode) == Print(Text(s), mode)
  {
    ContentIdempotent(s, SignedContent(isHeader));
    PrintsAlike(Text(JWS_TAG + JwsSigningInput(s, isHeader).value), Text(s), SignedContent(isHeader));
    var input := JwsSigningInput(s, isHeader).value;
    SplitPrefix(JWS_TAG, input);
    assert Split(JWS_TAG + input)[0][17] == COLON;
  }
}
