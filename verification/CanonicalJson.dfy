/**
 * The canonical printer behind content-derived event ids: an explicit-stack
 * loop, proved equal to a structurally recursive printer, which in turn a
 * parser undoes up to a normal form.
 *
 * An object is a map from keys to values: JSON.parse yields one value per key,
 * and the printer sorts the keys, so their wire order never matters.
 */
module CanonicalJson {
  import opened Text
  import opened JsonText

  predicate IsNumberUnit(c: Unit) {
    48 <= c <= 57 || c == 0x2B || c == 0x2D || c == 0x2E || c == 0x45 || c == 0x65
  }

  /** What JSON.stringify writes for a finite number; two numbers are told apart by it. */
  type Numeral = t: Str | t != [] && forall i | 0 <= i < |t| :: IsNumberUnit(t[i]) witness [48]

  /** A JSON.parse result. `Overflow` is the infinity that a literal such as 1e999 parses to. */
  datatype Json =
    | Null
    | Bool(b: bool)
    | Num(numeral: Numeral)
    | Overflow
    | Text(s: Str)
    | Arr(items: seq<Json>)
    | Obj(fields: map<Str, Json>)
  {
    /** `typeof v === 'object' && v !== null` */
    predicate IsObject() { Arr? || Obj? }
  }

  const NULL_TEXT: Str := [0x6E, 0x75, 0x6C, 0x6C]
  const TRUE_TEXT: Str := [0x74, 0x72, 0x75, 0x65]
  const FALSE_TEXT: Str := [0x66, 0x61, 0x6C, 0x73, 0x65]
  const COMMA: Unit := 0x2C
  const COLON: Unit := 0x3A
  const OPEN_BRACKET: Unit := 0x5B
  const CLOSE_BRACKET: Unit := 0x5D
  const OPEN_BRACE: Unit := 0x7B
  const CLOSE_BRACE: Unit := 0x7D
  const DOT: Unit := 0x2E

  /** "jws-signing-input:" */
  const JWS_TAG: Str :=
    [0x6A, 0x77, 0x73, 0x2D, 0x73, 0x69, 0x67, 0x6E, 0x69, 0x6E, 0x67, 0x2D, 0x69, 0x6E, 0x70, 0x75, 0x74, 0x3A]

  /** "signature", "manifest" and "revocation_list" */
  const SIGNATURE: Str := [0x73, 0x69, 0x67, 0x6E, 0x61, 0x74, 0x75, 0x72, 0x65]
  const MANIFEST: Str := [0x6D, 0x61, 0x6E, 0x69, 0x66, 0x65, 0x73, 0x74]
  const REVOCATION_LIST: Str :=
    [0x72, 0x65, 0x76, 0x6F, 0x63, 0x61, 0x74, 0x69, 0x6F, 0x6E, 0x5F, 0x6C, 0x69, 0x73, 0x74]

  /**
   * The `signedContent` option. `isHeader` says of a base64url segment whether
   * it decodes to a JSON object with a string `alg`; nothing is assumed of it.
   */
  datatype Mode = Verbatim | SignedContent(isHeader: Str -> bool)

  // ---------------------------------------------------------------- signed content

  predicate IsBase64Url(c: Unit) {
    48 <= c <= 57 || 65 <= c <= 90 || 97 <= c <= 122 || c == 0x5F || c == 0x2D
  }

  predicate IsSegment(s: Str) {
    s != [] && forall i | 0 <= i < |s| :: IsBase64Url(s[i])
  }

  /** `s.split('.')` */
  function Split(s: Str): (parts: seq<Str>)
    ensures parts != []
    ensures |parts| == 1 ==> parts[0] == s
  {
    if s == [] then [[]]
    else
      var rest := Split(s[1..]);
      if s[0] == DOT then [[]] + rest else [[s[0]] + rest[0]] + rest[1..]
  }

  /** The `header.payload` of a compact JWS (section 7.1 of RFC 7515), if `s` is one. */
  function JwsSigningInput(s: Str, isHeader: Str -> bool): Option<Str> {
    var parts := Split(s);
    if |parts| == 3 && IsSegment(parts[0]) && IsSegment(parts[1]) && IsSegment(parts[2]) && isHeader(parts[0])
    then Some(parts[0] + [DOT] + parts[1])
    else None
  }

  /** What a string contributes to the output. */
  function Content(s: Str, mode: Mode): Str {
    match mode
    case Verbatim => s
    case SignedContent(isHeader) =>
      match JwsSigningInput(s, isHeader)
      case Some(input) => JWS_TAG + input
      case None => s
  }

  predicate IsEnvelopeSignature(fields: map<Str, Json>, key: Str) {
    && key == SIGNATURE
    && SIGNATURE in fields && fields[SIGNATURE].Text?
    && (|| (MANIFEST in fields && fields[MANIFEST].IsObject())
        || (REVOCATION_LIST in fields && fields[REVOCATION_LIST].IsObject()))
  }

  /** The keys an object contributes. */
  function Kept(fields: map<Str, Json>, mode: Mode): set<Str> {
    set k | k in fields && !(mode.SignedContent? && IsEnvelopeSignature(fields, k))
  }

  // ---------------------------------------------------------------- the recursive printer

  function Join(parts: seq<Str>): Str {
    if parts == [] then []
    else if |parts| == 1 then parts[0]
    else parts[0] + ([COMMA] + Join(parts[1..]))
  }

  /** A value that is neither an array nor an object. */
  function Leaf(v: Json, mode: Mode): (r: Str)
    requires !v.IsObject()
    ensures r != []
  {
    match v
    case Null => NULL_TEXT
    case Bool(b) => if b then TRUE_TEXT else FALSE_TEXT
    case Num(numeral) => numeral
    case Overflow => NULL_TEXT
    case Text(s) => Quote(Content(s, mode))
  }

  ghost function Print(v: Json, mode: Mode): (r: Str)
    ensures r != []
    decreases v, 1, 0
  {
    match v
    case Arr(items) => [OPEN_BRACKET] + (Join(PrintItems(items, mode)) + [CLOSE_BRACKET])
    case Obj(fields) =>
      [OPEN_BRACE] + (Join(PrintMembers(v, Ordered(Kept(fields, mode)), mode)) + [CLOSE_BRACE])
    case _ => Leaf(v, mode)
  }

  ghost function PrintItems(items: seq<Json>, mode: Mode): (r: seq<Str>)
    ensures |r| == |items|
    ensures forall i | 0 <= i < |items| :: r[i] == Print(items[i], mode)
    decreases items, 0, 0
  {
    if items == [] then [] else [Print(items[0], mode)] + PrintItems(items[1..], mode)
  }

  ghost function PrintMembers(v: Json, ks: seq<Str>, mode: Mode): (r: seq<Str>)
    requires v.Obj? && forall k | k in ks :: k in v.fields
    ensures |r| == |ks|
    ensures forall i | 0 <= i < |ks| :: r[i] == Quote(ks[i]) + ([COLON] + Print(v.fields[ks[i]], mode))
    decreases v, 0, |ks|
  {
    if ks == [] then []
    else [Quote(ks[0]) + ([COLON] + Print(v.fields[ks[0]], mode))] + PrintMembers(v, ks[1..], mode)
  }

  // ---------------------------------------------------------------- the stack machine

  datatype Frame = Lit(text: Str) | Val(v: Json)

  ghost function Render(f: Frame, mode: Mode): Str {
    match f
    case Lit(text) => text
    case Val(v) => Print(v, mode)
  }

  /** Literal frames are never empty, so every iteration prints something. */
  ghost predicate Printable(stack: seq<Frame>) {
    forall i | 0 <= i < |stack| :: stack[i].Lit? ==> stack[i].text != []
  }

  /** What the frames still on the stack will print; the top is the last element. */
  ghost function Pending(stack: seq<Frame>, mode: Mode): Str {
    if stack == [] then [] else Render(stack[|stack| - 1], mode) + Pending(stack[..|stack| - 1], mode)
  }

  lemma PendingPush(stack: seq<Frame>, f: Frame, mode: Mode)
    ensures Pending(stack + [f], mode) == Render(f, mode) + Pending(stack, mode)
  {
    assert (stack + [f])[..|stack|] == stack;
  }

  lemma PendingMember(stack: seq<Frame>, k: Str, v: Json, mode: Mode)
    ensures Pending(stack + [Val(v)] + [Lit(Quote(k) + [COLON])], mode) ==
            Quote(k) + ([COLON] + Print(v, mode)) + Pending(stack, mode)
  {
    hide Print, Pending, Quote;
    PendingPush(stack, Val(v), mode);
    PendingPush(stack + [Val(v)], Lit(Quote(k) + [COLON]), mode);
  }

  lemma PendingStart(v: Json, mode: Mode)
    ensures Pending([Val(v)], mode) == Print(v, mode)
    ensures Pending([], mode) == []
  {
    assert [Val(v)][..0] == [];
  }

  lemma PendingPop(stack: seq<Frame>, mode: Mode)
    requires stack != []
    ensures Pending(stack, mode) == Render(stack[|stack| - 1], mode) + Pending(stack[..|stack| - 1], mode)
  {
  }

  lemma PrintShape(v: Json, mode: Mode)
    ensures v.Arr? ==> Print(v, mode) == [OPEN_BRACKET] + (Join(PrintItems(v.items, mode)) + [CLOSE_BRACKET])
    ensures v.Obj? ==>
              Print(v, mode) ==
              [OPEN_BRACE] + (Join(PrintMembers(v, Ordered(Kept(v.fields, mode)), mode)) + [CLOSE_BRACE])
    ensures !v.IsObject() ==> Print(v, mode) == Leaf(v, mode)
  {
  }

  /** `Object.keys(obj).filter(...).sort()`, starting from any enumeration of the keys. */
  method SortedKeys(fields: map<Str, Json>, mode: Mode) returns (ks: seq<Str>)
    ensures ks == Ordered(Kept(fields, mode))
  {
    var todo := fields.Keys;
    var kept: seq<Str> := [];
    while todo != {}
      invariant todo <= fields.Keys
      invariant forall i, j | 0 <= i < j < |kept| :: kept[i] != kept[j]
      invariant forall k | k in todo :: k !in kept
      invariant Elems(kept) + (Kept(fields, mode) * todo) == Kept(fields, mode)
    {
      var k :| k in todo;
      if !(mode.SignedContent? && IsEnvelopeSignature(fields, k)) {
        kept := kept + [k];
      }
      todo := todo - {k};
    }
    ks := Sort(kept);
    AscendingIsUnique(ks, Ordered(Kept(fields, mode)));
  }

  /** The loop terminates on every value and prints exactly what the recursive printer prints. */
  method Canonical(root: Json, mode: Mode) returns (out: Str)
    ensures out == Print(root, mode)
  {
    hide Print, PrintItems, PrintMembers, Pending, Join, Leaf, Ordered;
    out := [];
    var stack := [Val(root)];
    PendingStart(root, mode);
    while stack != []
      invariant out + Pending(stack, mode) == Print(root, mode)
      invariant Printable(stack)
      decreases |Print(root, mode)| - |out|
    {
      var frame := stack[|stack| - 1];
      PendingPop(stack, mode);
      stack := stack[..|stack| - 1];
      match frame
      case Lit(text) =>
        out := out + text;
      case Val(v) =>
        var text;
        text, stack := Visit(stack, v, mode);
        out := out + text;
    }
  }

  /** The body of the loop for a value frame: what it prints at once and what it pushes. */
  method Visit(below: seq<Frame>, v: Json, mode: Mode) returns (text: Str, stack: seq<Frame>)
    requires Printable(below)
    ensures Printable(stack) && text != []
    ensures text + Pending(stack, mode) == Print(v, mode) + Pending(below, mode)
  {
    hide Print, PrintItems, PrintMembers, Pending, Join, Leaf, Ordered;
    PrintShape(v, mode);
    if v.Arr? {
      text := [OPEN_BRACKET];
      stack := PushItems(below, v.items, mode);
    } else if v.Obj? {
      text := [OPEN_BRACE];
      stack := PushMembers(below, v, mode);
    } else {
      text := Leaf(v, mode);
      stack := below;
    }
  }

  method PushItems(below: seq<Frame>, items: seq<Json>, mode: Mode) returns (stack: seq<Frame>)
    requires Printable(below)
    ensures Printable(stack)
    ensures Pending(stack, mode) == Join(PrintItems(items, mode)) + [CLOSE_BRACKET] + Pending(below, mode)
  {
    hide Print, PrintItems, Pending, Join;
    ghost var parts := PrintItems(items, mode);
    JoinEnd(parts);
    stack := below + [Lit([CLOSE_BRACKET])];
    PendingPush(below, Lit([CLOSE_BRACKET]), mode);
    ghost var tail := [CLOSE_BRACKET] + Pending(below, mode);
    var i := |items|;
    while i > 0
      invariant 0 <= i <= |items|
      invariant Printable(stack)
      invariant Pending(stack, mode) == Separator(i, |items|) + (Join(parts[i..]) + tail)
    {
      i := i - 1;
      PendingPush(stack, Val(items[i]), mode);
      stack := stack + [Val(items[i])];
      JoinStep(parts, i, tail);
      if i > 0 {
        PendingPush(stack, Lit([COMMA]), mode);
        stack := stack + [Lit([COMMA])];
      }
    }
  }

  method PushMembers(below: seq<Frame>, v: Json, mode: Mode) returns (stack: seq<Frame>)
    requires v.Obj?
    requires Printable(below)
    ensures Printable(stack)
    ensures Pending(stack, mode) ==
            Join(PrintMembers(v, Ordered(Kept(v.fields, mode)), mode)) + [CLOSE_BRACE] + Pending(below, mode)
  {
    hide Print, PrintMembers, Pending, Join, Quote, Ordered;
    var ks := SortedKeys(v.fields, mode);
    ghost var parts := PrintMembers(v, ks, mode);
    JoinEnd(parts);
    stack := below + [Lit([CLOSE_BRACE])];
    PendingPush(below, Lit([CLOSE_BRACE]), mode);
    ghost var tail := [CLOSE_BRACE] + Pending(below, mode);
    var i := |ks|;
    while i > 0
      invariant 0 <= i <= |ks|
      invariant Printable(stack)
      invariant Pending(stack, mode) == Separator(i, |ks|) + (Join(parts[i..]) + tail)
    {
      i := i - 1;
      PendingMember(stack, ks[i], v.fields[ks[i]], mode);
      stack := stack + [Val(v.fields[ks[i]])];
      stack := stack + [Lit(Quote(ks[i]) + [COLON])];
      JoinStep(parts, i, tail);
      if i > 0 {
        PendingPush(stack, Lit([COMMA]), mode);
        stack := stack + [Lit([COMMA])];
      }
    }
  }

  /** The comma already pushed in front of parts `i..`, if there is one. */
  function Separator(i: nat, n: nat): Str { if 0 < i < n then [COMMA] else [] }

  lemma JoinEnd(parts: seq<Str>)
    ensures Join(parts[|parts|..]) == []
  {
  }

  lemma JoinStep(parts: seq<Str>, i: nat, tail: Str)
    requires i < |parts|
    ensures parts[i] + (Separator(i + 1, |parts|) + (Join(parts[i + 1..]) + tail)) == Join(parts[i..]) + tail
  {
    assert parts[i..][1..] == parts[i + 1..];
  }
}
