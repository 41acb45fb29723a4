/** What signed content does to text, said of the segments of a compact JWS and of the members of an envelope. */
module SignedContent {
  import opened Text
  import opened JsonText
  import opened CanonicalJson
  import opened JsonReader
  import opened Utf8
  import opened EventId

  // ---------------------------------------------------------------- splitting at dots

  /** `h.p.s`: the compact serialisation of section 7.1 of RFC 7515. */
  function Compact(h: Str, p: Str, s: Str): Str { h + ([DOT] + (p + ([DOT] + s))) }

  lemma {:induction false} SplitPlain(a: Str)
    requires DOT !in a
    ensures Split(a) == [a]
  {
    if a != [] {
      SplitPlain(a[1..]);
      assert a == [a[0]] + a[1..];
    }
  }

  lemma {:induction false} SplitAtDot(a: Str, rest: Str)
    requires DOT !in a
    ensures Split(a + ([DOT] + rest)) == [a] + Split(rest)
  {
    var s := a + ([DOT] + rest);
    if a == [] {
      assert s == [DOT] + rest && s[1..] == rest;
    } else {
      SplitAtDot(a[1..], rest);
      assert s[1..] == a[1..] + ([DOT] + rest);
      assert a == [a[0]] + a[1..];
    }
  }

  lemma SegmentHasNoDot(s: Str)
    requires IsSegment(s)
    ensures DOT !in s
  {
  }

  lemma SplitCompact(h: Str, p: Str, s: Str)
    requires IsSegment(h) && IsSegment(p) && IsSegment(s)
    ensures Split(Compact(h, p, s)) == [h, p, s]
  {
    SegmentHasNoDot(h);
    SegmentHasNoDot(p);
    SegmentHasNoDot(s);
    hide Split, IsSegment;
    SplitAtDot(h, p + ([DOT] + s));
    SplitAtDot(p, s);
    SplitPlain(s);
  }

  function JoinDots(parts: seq<Str>): Str
    requires parts != []
  {
    if |parts| == 1 then parts[0] else parts[0] + ([DOT] + JoinDots(parts[1..]))
  }

  lemma {:induction false} SplitJoins(s: Str)
    ensures JoinDots(Split(s)) == s
  {
    if s != [] {
      var rest := Split(s[1..]);
      SplitJoins(s[1..]);
      assert s == [s[0]] + s[1..];
      if s[0] == DOT {
        assert ([[]] + rest)[1..] == rest;
      } else {
        var parts := [[s[0]] + rest[0]] + rest[1..];
        assert parts[1..] == rest[1..];
        if |rest| > 1 {
          assert [s[0]] + (rest[0] + ([DOT] + JoinDots(rest[1..]))) == [s[0]] + rest[0] + ([DOT] + JoinDots(rest[1..]));
        }
      }
    }
  }

  // ---------------------------------------------------------------- a compact JWS

  ghost predicate IsCompactJws(text: Str, isHeader: Str -> bool) {
    exists h, p, s :: IsSegment(h) && IsSegment(p) && IsSegment(s) && isHeader(h) && text == Compact(h, p, s)
  }

  /** A compact JWS prints as its tagged header and payload. */
  lemma JwsPrints(h: Str, p: Str, s: Str, isHeader: Str -> bool)
    requires IsSegment(h) && IsSegment(p) && IsSegment(s) && isHeader(h)
    ensures Print(Text(Compact(h, p, s)), SignedContent(isHeader)) == Quote(JWS_TAG + (h + ([DOT] + p)))
  {
    SplitCompact(h, p, s);
    assert h + [DOT] + p == h + ([DOT] + p);
    hide Split, IsSegment, Quote;
  }

  lemma QuoteInjective(a: Str, b: Str)
    requires Quote(a) == Quote(b)
    ensures a == b
  {
    UnquoteEscape(a, 0, []);
    UnquoteEscape(b, 0, []);
    assert Quote(a)[1..] == Escape(a) + ([QUOTE] + []) && Quote(b)[1..] == Escape(b) + ([QUOTE] + []);
  }

  lemma DotSplits(h: Str, p: Str, k: Str, q: Str)
    requires DOT !in h && DOT !in p && DOT !in k && DOT !in q && h + ([DOT] + p) == k + ([DOT] + q)
    ensures h == k && p == q
  {
    SplitAtDot(h, p);
    SplitAtDot(k, q);
    SplitPlain(p);
    SplitPlain(q);
    assert [h, p] == [h] + Split(p) == [k] + Split(q) == [k, q];
    assert [h, p][0] == h && [h, p][1] == p && [k, q][0] == k && [k, q][1] == q;
  }

  /** Two compact JWS print alike exactly when header and payload agree; signatures never count. */
  lemma JwsAlikeIff(h: Str, p: Str, s: Str, k: Str, q: Str, t: Str, isHeader: Str -> bool)
    requires IsSegment(h) && IsSegment(p) && IsSegment(s) && isHeader(h)
    requires IsSegment(k) && IsSegment(q) && IsSegment(t) && isHeader(k)
    ensures var mode := SignedContent(isHeader);
            Print(Text(Compact(h, p, s)), mode) == Print(Text(Compact(k, q, t)), mode) <==> h == k && p == q
  {
    JwsPrints(h, p, s, isHeader);
    JwsPrints(k, q, t, isHeader);
    SegmentHasNoDot(h);
    SegmentHasNoDot(p);
    SegmentHasNoDot(k);
    SegmentHasNoDot(q);
    hide Print, Quote, IsSegment;
    var a, b := h + ([DOT] + p), k + ([DOT] + q);
    if Quote(JWS_TAG + a) == Quote(JWS_TAG + b) {
      QuoteInjective(JWS_TAG + a, JWS_TAG + b);
      assert a == (JWS_TAG + a)[|JWS_TAG|..] == (JWS_TAG + b)[|JWS_TAG|..] == b;
      DotSplits(h, p, k, q);
    }
  }

  /** A string of any other shape prints as itself. */
  lemma OtherTextPrints(text: Str, isHeader: Str -> bool)
    requires !IsCompactJws(text, isHeader)
    ensures Print(Text(text), SignedContent(isHeader)) == Print(Text(text), Verbatim) == Quote(text)
  {
    var parts := Split(text);
    SplitJoins(text);
    if |parts| == 3 {
      assert parts[1..] == [parts[1], parts[2]] && parts[1..][1..] == [parts[2]];
      assert JoinDots(parts) == parts[0] + ([DOT] + JoinDots(parts[1..]));
      assert JoinDots(parts[1..]) == parts[1] + ([DOT] + parts[2]);
      assert text == Compact(parts[0], parts[1], parts[2]);
    }
    hide Split, JoinDots, Quote, IsSegment, Compact;
  }

  // ---------------------------------------------------------------- an envelope

  ghost predicate IsEnvelope(fields: map<Str, Json>) {
    || (MANIFEST in fields && fields[MANIFEST].IsObject())
    || (REVOCATION_LIST in fields && fields[REVOCATION_LIST].IsObject())
  }

  lemma EnvelopeKeeps(fields: map<Str, Json>, s: Str, isHeader: Str -> bool)
    ensures Kept(fields[SIGNATURE := Text(s)], SignedContent(isHeader)) ==
            if IsEnvelope(fields) then fields.Keys - {SIGNATURE} else fields.Keys + {SIGNATURE}
  {
    assert MANIFEST != SIGNATURE && REVOCATION_LIST != SIGNATURE by {
      assert |MANIFEST| == 8 && |SIGNATURE| == 9 && |REVOCATION_LIST| == 15;
    }
  }

  lemma MembersOfNormal(v: Json, mode: Mode)
    requires v.Obj?
    ensures Normal(v, mode).Obj? && Normal(v, mode).fields.Keys == Kept(v.fields, mode)
    ensures forall k | k in Kept(v.fields, mode) :: Normal(v, mode).fields[k] == Normal(v.fields[k], mode)
  {
  }

  /** The signature text of an object counts exactly when the object holds no manifest and no list. */
  lemma SignatureCountsIff(fields: map<Str, Json>, s: Str, t: Str, isHeader: Str -> bool)
    ensures var mode := SignedContent(isHeader);
            Print(Obj(fields[SIGNATURE := Text(s)]), mode) == Print(Obj(fields[SIGNATURE := Text(t)]), mode) <==>
            IsEnvelope(fields) || Print(Text(s), mode) == Print(Text(t), mode)
  {
    hide Print, Content, Normal, Kept, IsEnvelope;
    var mode := SignedContent(isHeader);
    var v, w := Obj(fields[SIGNATURE := Text(s)]), Obj(fields[SIGNATURE := Text(t)]);
    PrintsAlike(v, w, mode);
    PrintsAlike(Text(s), Text(t), mode);
    EnvelopeKeeps(fields, s, isHeader);
    EnvelopeKeeps(fields, t, isHeader);
    MembersOfNormal(v, mode);
    MembersOfNormal(w, mode);
    var a, b := Normal(v, mode).fields, Normal(w, mode).fields;
    assert forall k | k in a && k != SIGNATURE :: a[k] == b[k];
    if !IsEnvelope(fields) {
      assert a[SIGNATURE] == Normal(Text(s), mode) && b[SIGNATURE] == Normal(Text(t), mode);
    }
    assert a == b <==> IsEnvelope(fields) || Normal(Text(s), mode) == Normal(Text(t), mode);
  }

  lemma MemberIsKept(fields: map<Str, Json>, key: Str, v: Json, mode: Mode)
    requires key != SIGNATURE && key != MANIFEST && key != REVOCATION_LIST
    ensures Kept(fields[key := v], mode) == Kept(fields, mode) + {key}
  {
  }

  /** Any other member of an object always counts, envelope or not. */
  lemma MemberCounts(fields: map<Str, Json>, key: Str, v: Json, w: Json, isHeader: Str -> bool)
    requires key != SIGNATURE && key != MANIFEST && key != REVOCATION_LIST
    ensures var mode := SignedContent(isHeader);
            Print(Obj(fields[key := v]), mode) == Print(Obj(fields[key := w]), mode) <==>
            Print(v, mode) == Print(w, mode)
  {
    hide Print, Content, Normal, Kept;
    var mode := SignedContent(isHeader);
    var x, y := Obj(fields[key := v]), Obj(fields[key := w]);
    PrintsAlike(x, y, mode);
    PrintsAlike(v, w, mode);
    MemberIsKept(fields, key, v, mode);
    MemberIsKept(fields, key, w, mode);
    MembersOfNormal(x, mode);
    MembersOfNormal(y, mode);
    var a, b := Normal(x, mode).fields, Normal(y, mode).fields;
    assert forall k | k in a && k != key :: a[k] == b[k];
    assert a[key] == Normal(v, mode) && b[key] == Normal(w, mode);
    assert a == b <==> Normal(v, mode) == Normal(w, mode);
  }

  /**
   * Two reports of one event that differ in one member's compact JWS get the
   * same id, hashes not colliding, exactly when header and payload agree.
   */
  lemma SameIdIffSameJws<Id>(
    fields: map<Str, Json>, key: Str, h: Str, p: Str, s: Str, k: Str, q: Str, t: Str, producer: Option<ProducerKey>,
    rv: Id, rw: Id, digest: seq<Byte> -> Id, isHeader: Str -> bool)
    requires key != SIGNATURE && key != MANIFEST && key != REVOCATION_LIST
    requires IsSegment(h) && IsSegment(p) && IsSegment(s) && isHeader(h)
    requires IsSegment(k) && IsSegment(q) && IsSegment(t) && isHeader(k)
    ensures var v, w := Obj(fields[key := Text(Compact(h, p, s))]), Obj(fields[key := Text(Compact(k, q, t))]);
            var a, b := HashInput(v, producer, isHeader), HashInput(w, producer, isHeader);
            var x, y := EventIdFor(v, producer, true, rv, digest, isHeader),
                        EventIdFor(w, producer, true, rw, digest, isHeader);
            (digest(a) == digest(b) ==> a == b) ==> (x == y <==> h == k && p == q)
  {
    hide HashInput, Print, Compact, IsSegment, Normal;
    var x, y := Text(Compact(h, p, s)), Text(Compact(k, q, t));
    var v, w := Obj(fields[key := x]), Obj(fields[key := y]);
    var a, b := HashInput(v, producer, isHeader), HashInput(w, producer, isHeader);
    if digest(a) == digest(b) ==> a == b {
      SameIdIffSameEvent(v, w, producer, producer, rv, rw, digest, isHeader);
    }
    PrintsAlike(v, w, SignedContent(isHeader));
    MemberCounts(fields, key, x, y, isHeader);
    JwsAlikeIff(h, p, s, k, q, t, isHeader);
  }
}
