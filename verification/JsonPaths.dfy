/** The walk's verdict, said of the places in a JSON value: how long the paths are and what is found at their ends. */
module JsonPaths {
  import opened Text
  import opened JsonText
  import opened CanonicalJson
  import opened JsonProblem

  datatype Step = Entry(i: nat) | Member(k: Str)

  function Child(v: Json, step: Step): Option<Json> {
    match step
    case Entry(i) => if v.Arr? && i < |v.items| then Some(v.items[i]) else None
    case Member(k) => if v.Obj? && k in v.fields then Some(v.fields[k]) else None
  }

  /** What a path leads to. */
  function At(v: Json, path: seq<Step>): Option<Json>
    decreases |path|
  {
    if path == [] then Some(v)
    else
      match Child(v, path[0])
      case Some(w) => At(w, path[1..])
      case None => None
  }

  ghost predicate LeadsToContainer(v: Json, path: seq<Step>) { At(v, path).Some? && At(v, path).value.IsObject() }

  /** A string value, or a key of an object, satisfies `bad` where the path leads. */
  ghost predicate LeadsToBad(v: Json, path: seq<Step>, bad: Str -> bool) {
    match At(v, path)
    case Some(Text(s)) => bad(s)
    case Some(Obj(fields)) => exists k | k in fields :: bad(k)
    case _ => false
  }

  lemma AtCons(v: Json, step: Step, path: seq<Step>)
    requires Child(v, step).Some?
    ensures At(v, [step] + path) == At(Child(v, step).value, path)
  {
    assert ([step] + path)[1..] == path;
  }

  lemma ChildOf(v: Json, step: Step)
    requires Child(v, step).Some?
    ensures Child(v, step).value < v
    ensures forall level: nat :: Deep(Child(v, step).value, level + 1) ==> Deep(v, level)
    ensures forall bad :: Has(Child(v, step).value, bad) ==> Has(v, bad)
  {
  }

  lemma {:induction false} DeepHasPath(v: Json, level: nat) returns (path: seq<Step>)
    requires Deep(v, level)
    ensures LeadsToContainer(v, path) && level + |path| > 64
    decreases v
  {
    path := [];
    if !(v.IsObject() && level > 64) {
      var step;
      if v.Arr? {
        var i :| 0 <= i < |v.items| && Deep(v.items[i], level + 1);
        step := Entry(i);
      } else {
        var k :| k in v.fields && Deep(v.fields[k], level + 1);
        step := Member(k);
      }
      var rest := DeepHasPath(Child(v, step).value, level + 1);
      AtCons(v, step, rest);
      path := [step] + rest;
    }
  }

  lemma {:induction false} PathMakesDeep(v: Json, level: nat, path: seq<Step>)
    requires LeadsToContainer(v, path) && level + |path| > 64
    ensures Deep(v, level)
    decreases |path|
  {
    if path != [] {
      PathMakesDeep(Child(v, path[0]).value, level + 1, path[1..]);
      ChildOf(v, path[0]);
    }
  }

  /** A value is too deep exactly when a path of 64 steps or more leads to an array or object, that is, a 65th level. */
  lemma DeepIff(v: Json)
    ensures Deep(v, 1) <==> exists path :: LeadsToContainer(v, path) && |path| >= 64
  {
    if Deep(v, 1) {
      var path := DeepHasPath(v, 1);
    }
    forall path | LeadsToContainer(v, path) && |path| >= 64 ensures Deep(v, 1) {
      PathMakesDeep(v, 1, path);
    }
  }

  lemma {:induction false} HasHasPath(v: Json, bad: Str -> bool) returns (path: seq<Step>)
    requires Has(v, bad)
    ensures LeadsToBad(v, path, bad)
    decreases v
  {
    path := [];
    if !LeadsToBad(v, [], bad) {
      var step;
      if v.Arr? {
        var i :| 0 <= i < |v.items| && Has(v.items[i], bad);
        step := Entry(i);
      } else {
        var k :| k in v.fields && Has(v.fields[k], bad);
        step := Member(k);
      }
      var rest := HasHasPath(Child(v, step).value, bad);
      AtCons(v, step, rest);
      path := [step] + rest;
    }
  }

  lemma {:induction false} PathMakesHas(v: Json, path: seq<Step>, bad: Str -> bool)
    requires LeadsToBad(v, path, bad)
    ensures Has(v, bad)
    decreases |path|
  {
    if path != [] {
      PathMakesHas(Child(v, path[0]).value, path[1..], bad);
      ChildOf(v, path[0]);
    }
  }

  lemma HasIff(v: Json, bad: Str -> bool)
    ensures Has(v, bad) <==> exists path :: LeadsToBad(v, path, bad)
  {
    if Has(v, bad) {
      var path := HasHasPath(v, bad);
    }
    forall path | LeadsToBad(v, path, bad) ensures Has(v, bad) {
      PathMakesHas(v, path, bad);
    }
  }

  predicate HasZero(s: Str) { 0 in s }

  /** A high surrogate that no low one follows, or a low one that no high one precedes. */
  predicate IsLoneAt(s: Str, i: nat)
    requires i < |s|
  {
    || (0xD800 <= s[i] <= 0xDBFF && (i + 1 == |s| || !(0xDC00 <= s[i + 1] <= 0xDFFF)))
    || (0xDC00 <= s[i] <= 0xDFFF && (i == 0 || !(0xD800 <= s[i - 1] <= 0xDBFF)))
  }

  predicate HasLoneSurrogate(s: Str) { exists i: nat :: i < |s| && IsLoneAt(s, i) }

  lemma LoneIs(s: Str)
    ensures ContainsLone(s) <==> HasLoneSurrogate(s)
  {
    forall i: nat | i < |s| ensures Lone(s, i) <==> IsLoneAt(s, i) {
    }
    hide Lone, IsLoneAt;
    if ContainsLone(s) {
      var i :| 0 <= i < |s| && Lone(s, i);
      assert IsLoneAt(s, i);
    }
    if HasLoneSurrogate(s) {
      var i: nat :| i < |s| && IsLoneAt(s, i);
      assert Lone(s, i);
    }
  }

  ghost predicate TooDeepAt(v: Json) { exists path :: LeadsToContainer(v, path) && |path| >= 64 }

  ghost predicate FoundAt(v: Json, bad: Str -> bool) { exists path :: LeadsToBad(v, path, bad) }

  lemma {:induction false} SameStrings(v: Json, bad: Str -> bool, also: Str -> bool)
    requires forall s :: bad(s) <==> also(s)
    ensures Has(v, bad) <==> Has(v, also)
    decreases v
  {
    if v.Arr? {
      forall i | 0 <= i < |v.items| ensures Has(v.items[i], bad) <==> Has(v.items[i], also) {
        SameStrings(v.items[i], bad, also);
      }
    } else if v.Obj? {
      forall k | k in v.fields ensures Has(v.fields[k], bad) <==> Has(v.fields[k], also) {
        SameStrings(v.fields[k], bad, also);
      }
    }
  }

  /** The verdict on a payload: a 65th level first, then U+0000 in a key or string, then a lone surrogate in one. */
  lemma VerdictIs(v: Json)
    ensures Verdict(v) == if TooDeepAt(v) then Some(TooDeep)
                          else if FoundAt(v, HasZero) then Some(NulCharacter)
                          else if FoundAt(v, HasLoneSurrogate) then Some(LoneSurrogate)
                          else None
  {
    DeepIff(v);
    HasIff(v, HasZero);
    HasIff(v, HasLoneSurrogate);
    SameStrings(v, ContainsNul, HasZero);
    forall s ensures ContainsLone(s) <==> HasLoneSurrogate(s) {
      LoneIs(s);
    }
    SameStrings(v, ContainsLone, HasLoneSurrogate);
    hide Deep, Has, LeadsToContainer, LeadsToBad, ContainsNul, ContainsLone, HasZero, HasLoneSurrogate;
  }
}
