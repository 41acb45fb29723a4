/** Why Postgres could not store a JSON value: the early-exit stack walk and what it decides. */
module JsonProblem {
  import opened Text
  import opened JsonText
  import opened CanonicalJson

  const MAX_PAYLOAD_DEPTH := 64

  datatype Problem = TooDeep | NulCharacter | LoneSurrogate

  predicate ContainsNul(s: Str) { exists i | 0 <= i < |s| :: s[i] == 0 }

  /** `!str.isWellFormed()` */
  predicate ContainsLone(s: Str) { exists i | 0 <= i < |s| :: Lone(s, i) }

  /** Some array or object of `v`, itself at `level`, sits below the depth cap. */
  ghost predicate Deep(v: Json, level: nat)
    decreases v
  {
    || (v.IsObject() && level > MAX_PAYLOAD_DEPTH)
    || (v.Arr? && exists i | 0 <= i < |v.items| :: Deep(v.items[i], level + 1))
    || (v.Obj? && exists k | k in v.fields :: Deep(v.fields[k], level + 1))
  }

  /** Some key or string value of `v` satisfies `bad`. */
  ghost predicate Has(v: Json, bad: Str -> bool)
    decreases v
  {
    || (v.Text? && bad(v.s))
    || (v.Arr? && exists i | 0 <= i < |v.items| :: Has(v.items[i], bad))
    || (v.Obj? && exists k | k in v.fields :: bad(k) || Has(v.fields[k], bad))
  }

  /** The verdict: depth first, then NUL, then lone surrogates. */
  ghost function Verdict(v: Json): Option<Problem> {
    if Deep(v, 1) then Some(TooDeep)
    else if Has(v, ContainsNul) then Some(NulCharacter)
    else if Has(v, ContainsLone) then Some(LoneSurrogate)
    else None
  }

  // ---------------------------------------------------------------- termination measure

  ghost function Nodes(v: Json): nat
    decreases v, 1
  {
    match v
    case Arr(items) => 1 + NodesOfItems(items)
    case Obj(fields) => 1 + NodesOfKeys(v, fields.Keys)
    case _ => 1
  }

  ghost function NodesOfItems(items: seq<Json>): nat
    decreases items, 0
  {
    if items == [] then 0 else Nodes(items[0]) + NodesOfItems(items[1..])
  }

  ghost function NodesOfKeys(v: Json, keys: set<Str>): nat
    requires v.Obj? && keys <= v.fields.Keys
    decreases v, 0, keys
  {
    if keys == {} then 0
    else
      var k :| k in keys;
      Nodes(v.fields[k]) + NodesOfKeys(v, keys - {k})
  }

  /** The sum does not depend on the order in which keys are taken. */
  lemma {:induction false} TakeKey(v: Json, keys: set<Str>, k: Str)
    requires v.Obj? && keys <= v.fields.Keys && k in keys
    ensures NodesOfKeys(v, keys) == Nodes(v.fields[k]) + NodesOfKeys(v, keys - {k})
    decreases keys
  {
    var first :| first in keys && NodesOfKeys(v, keys) == Nodes(v.fields[first]) + NodesOfKeys(v, keys - {first});
    if first != k {
      TakeKey(v, keys - {first}, k);
      TakeKey(v, keys - {k}, first);
      assert keys - {first} - {k} == keys - {k} - {first};
    }
  }

  datatype Visit = Visit(value: Json, level: nat)

  ghost function NodesOnStack(stack: seq<Visit>): nat {
    if stack == [] then 0 else Nodes(stack[|stack| - 1].value) + NodesOnStack(stack[..|stack| - 1])
  }

  lemma NodesPush(stack: seq<Visit>, f: Visit)
    ensures NodesOnStack(stack + [f]) == Nodes(f.value) + NodesOnStack(stack)
  {
    assert (stack + [f])[..|stack|] == stack;
  }

  lemma {:induction false} NodesOfPrefix(items: seq<Json>, i: nat)
    requires i < |items|
    ensures NodesOfItems(items[..i + 1]) == NodesOfItems(items[..i]) + Nodes(items[i])
  {
    if i > 0 {
      NodesOfPrefix(items[1..], i - 1);
      assert items[1..][..i] == items[..i + 1][1..];
      assert items[1..][..i - 1] == items[..i][1..];
    } else {
      assert items[..1] == [items[0]];
      assert items[..1][1..] == [];
    }
  }

  // ---------------------------------------------------------------- the walk

  ghost predicate DeepOnStack(stack: seq<Visit>) {
    exists i | 0 <= i < |stack| :: Deep(stack[i].value, stack[i].level)
  }

  ghost predicate HasOnStack(stack: seq<Visit>, bad: Str -> bool) {
    exists i | 0 <= i < |stack| :: Has(stack[i].value, bad)
  }

  lemma DeepSplit(stack: seq<Visit>, f: Visit)
    ensures DeepOnStack(stack + [f]) <==> DeepOnStack(stack) || Deep(f.value, f.level)
  {
    var s := stack + [f];
    assert s[|stack|] == f;
    assert forall i | 0 <= i < |stack| :: s[i] == stack[i];
  }

  lemma HasSplit(stack: seq<Visit>, f: Visit, bad: Str -> bool)
    ensures HasOnStack(stack + [f], bad) <==> HasOnStack(stack, bad) || Has(f.value, bad)
  {
    var s := stack + [f];
    assert s[|stack|] == f;
    assert forall i | 0 <= i < |stack| :: s[i] == stack[i];
  }

  /** The walk stops on every value and decides the recursive verdict, whatever order keys come in. */
  method JsonValueProblem(root: Json) returns (problem: Option<Problem>)
    ensures problem == Verdict(root)
  {
    hide Nodes, NodesOfItems, NodesOfKeys, NodesOnStack, Deep, Has, DeepOnStack, HasOnStack, ContainsNul, ContainsLone;
    var hasNul, hasLone := false, false;
    var stack := [Visit(root, 1)];
    StackOfOne(Visit(root, 1));
    while stack != []
      invariant Deep(root, 1) <==> DeepOnStack(stack)
      invariant Has(root, ContainsNul) <==> hasNul || HasOnStack(stack, ContainsNul)
      invariant Has(root, ContainsLone) <==> hasLone || HasOnStack(stack, ContainsLone)
      decreases NodesOnStack(stack)
    {
      var top := stack[|stack| - 1];
      ghost var before := stack;
      stack := stack[..|stack| - 1];
      assert before == stack + [top];
      DeepSplit(stack, top);
      HasSplit(stack, top, ContainsNul);
      HasSplit(stack, top, ContainsLone);
      NodesPush(stack, top);
      var value := top.value;
      Shape(value, top.level);
      if value.Text? {
        hasNul := hasNul || ContainsNul(value.s);
        hasLone := hasLone || ContainsLone(value.s);
      } else if value.IsObject() {
        if top.level > MAX_PAYLOAD_DEPTH {
          return Some(TooDeep);
        }
        if value.Arr? {
          stack := PushItems(stack, value.items, top.level + 1);
        } else {
          var nul, lone;
          stack, nul, lone := PushEntries(stack, value, top.level + 1);
          hasNul, hasLone := hasNul || nul, hasLone || lone;
        }
      }
    }
    problem := if hasNul then Some(NulCharacter) else if hasLone then Some(LoneSurrogate) else None;
  }

  /** The recursive verdict and the measure, one level unfolded. */
  lemma Shape(v: Json, level: nat)
    ensures Deep(v, level) <==>
            (|| (v.IsObject() && level > MAX_PAYLOAD_DEPTH)
             || (v.Arr? && exists i | 0 <= i < |v.items| :: Deep(v.items[i], level + 1))
             || (v.Obj? && exists k | k in v.fields :: Deep(v.fields[k], level + 1)))
    ensures Has(v, ContainsNul) <==>
            (|| (v.Text? && ContainsNul(v.s))
             || (v.Arr? && exists i | 0 <= i < |v.items| :: Has(v.items[i], ContainsNul))
             || (v.Obj? && exists k | k in v.fields :: ContainsNul(k) || Has(v.fields[k], ContainsNul)))
    ensures Has(v, ContainsLone) <==>
            (|| (v.Text? && ContainsLone(v.s))
             || (v.Arr? && exists i | 0 <= i < |v.items| :: Has(v.items[i], ContainsLone))
             || (v.Obj? && exists k | k in v.fields :: ContainsLone(k) || Has(v.fields[k], ContainsLone)))
    ensures Nodes(v) > 0
    ensures v.Arr? ==> Nodes(v) == 1 + NodesOfItems(v.items)
    ensures v.Obj? ==> Nodes(v) == 1 + NodesOfKeys(v, v.fields.Keys)
  {
  }

  lemma StackOfOne(f: Visit)
    ensures DeepOnStack([f]) <==> Deep(f.value, f.level)
    ensures HasOnStack([f], ContainsNul) <==> Has(f.value, ContainsNul)
    ensures HasOnStack([f], ContainsLone) <==> Has(f.value, ContainsLone)
    ensures !DeepOnStack([]) && !HasOnStack([], ContainsNul) && !HasOnStack([], ContainsLone)
  {
    assert [f][0] == f;
  }

  method PushItems(below: seq<Visit>, items: seq<Json>, level: nat) returns (stack: seq<Visit>)
    ensures NodesOnStack(stack) == NodesOnStack(below) + NodesOfItems(items)
    ensures DeepOnStack(stack) <==> DeepOnStack(below) || exists i | 0 <= i < |items| :: Deep(items[i], level)
    ensures HasOnStack(stack, ContainsNul) <==>
            HasOnStack(below, ContainsNul) || exists i | 0 <= i < |items| :: Has(items[i], ContainsNul)
    ensures HasOnStack(stack, ContainsLone) <==>
            HasOnStack(below, ContainsLone) || exists i | 0 <= i < |items| :: Has(items[i], ContainsLone)
  {
    hide Nodes, NodesOnStack, Deep, Has, DeepOnStack, HasOnStack;
    stack := below;
    var i := 0;
    while i < |items|
      invariant 0 <= i <= |items|
      invariant NodesOnStack(stack) == NodesOnStack(below) + NodesOfItems(items[..i])
      invariant DeepOnStack(stack) <==> DeepOnStack(below) || exists j | 0 <= j < i :: Deep(items[j], level)
      invariant HasOnStack(stack, ContainsNul) <==>
                HasOnStack(below, ContainsNul) || exists j | 0 <= j < i :: Has(items[j], ContainsNul)
      invariant HasOnStack(stack, ContainsLone) <==>
                HasOnStack(below, ContainsLone) || exists j | 0 <= j < i :: Has(items[j], ContainsLone)
    {
      var f := Visit(items[i], level);
      DeepSplit(stack, f);
      HasSplit(stack, f, ContainsNul);
      HasSplit(stack, f, ContainsLone);
      NodesPush(stack, f);
      NodesOfPrefix(items, i);
      stack := stack + [f];
      i := i + 1;
    }
    assert items[..i] == items;
  }

  method PushEntries(below: seq<Visit>, v: Json, level: nat) returns (stack: seq<Visit>, nul: bool, lone: bool)
    requires v.Obj?
    ensures NodesOnStack(stack) == NodesOnStack(below) + NodesOfKeys(v, v.fields.Keys)
    ensures DeepOnStack(stack) <==> DeepOnStack(below) || exists k | k in v.fields :: Deep(v.fields[k], level)
    ensures nul || HasOnStack(stack, ContainsNul) <==>
            HasOnStack(below, ContainsNul) ||
            exists k | k in v.fields :: ContainsNul(k) || Has(v.fields[k], ContainsNul)
    ensures lone || HasOnStack(stack, ContainsLone) <==>
            HasOnStack(below, ContainsLone) ||
            exists k | k in v.fields :: ContainsLone(k) || Has(v.fields[k], ContainsLone)
  {
    hide Nodes, NodesOfKeys, NodesOnStack, Deep, Has, DeepOnStack, HasOnStack, ContainsNul, ContainsLone;
    stack, nul, lone := below, false, false;
    var todo := v.fields.Keys;
    while todo != {}
      invariant todo <= v.fields.Keys
      invariant NodesOnStack(stack) + NodesOfKeys(v, todo) == NodesOnStack(below) + NodesOfKeys(v, v.fields.Keys)
      invariant DeepOnStack(stack) <==>
                DeepOnStack(below) || exists k | k in v.fields.Keys - todo :: Deep(v.fields[k], level)
      invariant nul || HasOnStack(stack, ContainsNul) <==>
                HasOnStack(below, ContainsNul) ||
                exists k | k in v.fields.Keys - todo :: ContainsNul(k) || Has(v.fields[k], ContainsNul)
      invariant lone || HasOnStack(stack, ContainsLone) <==>
                HasOnStack(below, ContainsLone) ||
                exists k | k in v.fields.Keys - todo :: ContainsLone(k) || Has(v.fields[k], ContainsLone)
      decreases |todo|
    {
      var k :| k in todo;
      var f := Visit(v.fields[k], level);
      nul, lone := nul || ContainsNul(k), lone || ContainsLone(k);
      DeepSplit(stack, f);
      HasSplit(stack, f, ContainsNul);
      HasSplit(stack, f, ContainsLone);
      NodesPush(stack, f);
      TakeKey(v, todo, k);
      stack := stack + [f];
      todo := todo - {k};
    }
    NoKeys(v);
  }

  lemma NoKeys(v: Json)
    requires v.Obj?
    ensures NodesOfKeys(v, {}) == 0
  {
  }
}
