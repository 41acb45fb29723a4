/**
 * The delegation graph. Each row has one parent, so walking up is a function;
 * the table may be cyclic and a parent need not have a row.
 */
module Delegations {
  import opened Text

  type Jti = string

  /** Parent links of the rows present. */
  type Links = map<Jti, Jti>

  /** The jti reached from `x` by `n` parent links, if every link on the way has a row. */
  function Up(links: Links, x: Jti, n: nat): Option<Jti>
    decreases n
  {
    if n == 0 then Some(x)
    else if x !in links then None
    else Up(links, links[x], n - 1)
  }

  /** `a` is a proper ancestor of `x`. On a cycle a jti is its own ancestor. */
  ghost predicate Above(links: Links, a: Jti, x: Jti) {
    exists n: nat :: n > 0 && Up(links, x, n) == Some(a)
  }

  /** The rows below `root`. */
  ghost function Descendants(links: Links, root: Jti): set<Jti> {
    set x | x in links && Above(links, root, x)
  }

  lemma {:induction false} UpAdds(links: Links, x: Jti, m: nat, n: nat)
    ensures Up(links, x, m).Some? ==> Up(links, x, m + n) == Up(links, Up(links, x, m).value, n)
    decreases m
  {
    if m > 0 && x in links {
      UpAdds(links, links[x], m - 1, n);
    }
  }

  /** One parent link, then anything at or above the parent. */
  lemma AboveStep(links: Links, a: Jti, x: Jti)
    ensures Above(links, a, x) <==> x in links && (links[x] == a || Above(links, a, links[x]))
  {
    if Above(links, a, x) {
      var n: nat :| n > 0 && Up(links, x, n) == Some(a);
      assert Up(links, links[x], n - 1) == Some(a);
    }
    if x in links && links[x] == a {
      assert Up(links, links[x], 0) == Some(a);
      assert Up(links, x, 1) == Some(a);
    }
    if x in links && Above(links, a, links[x]) {
      var n: nat :| n > 0 && Up(links, links[x], n) == Some(a);
      assert Up(links, x, n + 1) == Some(a);
    }
  }

  lemma AboveTransitive(links: Links, a: Jti, b: Jti, c: Jti)
    requires Above(links, a, b) && Above(links, b, c)
    ensures Above(links, a, c)
  {
    var m: nat :| m > 0 && Up(links, c, m) == Some(b);
    var n: nat :| n > 0 && Up(links, b, n) == Some(a);
    UpAdds(links, c, m, n);
  }

  /** A set closed under taking children that holds the children of `root`. */
  ghost predicate ClosedBelow(links: Links, root: Jti, s: set<Jti>) {
    forall x | x in links :: links[x] == root || links[x] in s ==> x in s
  }

  lemma {:induction false} ClosedHoldsBelow(links: Links, root: Jti, s: set<Jti>, x: Jti, n: nat)
    requires ClosedBelow(links, root, s) && n > 0 && Up(links, x, n) == Some(root)
    ensures x in s
    decreases n
  {
    if n > 1 {
      ClosedHoldsBelow(links, root, s, links[x], n - 1);
    }
  }

  /** The descendants are the least set closed under the recursive query's two arms. */
  lemma DescendantsLeast(links: Links, root: Jti)
    ensures ClosedBelow(links, root, Descendants(links, root))
    ensures forall s | ClosedBelow(links, root, s) :: Descendants(links, root) <= s
  {
    forall x | x in links
      ensures links[x] == root || links[x] in Descendants(links, root) ==> x in Descendants(links, root)
    {
      AboveStep(links, root, x);
    }
    forall s | ClosedBelow(links, root, s) ensures Descendants(links, root) <= s {
      forall x | x in Descendants(links, root) ensures x in s {
        var n: nat :| n > 0 && Up(links, x, n) == Some(root);
        ClosedHoldsBelow(links, root, s, x, n);
      }
    }
  }

  function Children(links: Links, parents: set<Jti>): set<Jti> {
    set x | x in links && links[x] in parents
  }

  /**
   * `with recursive ... union`: rows not seen before feed the next round. The
   * union drops repeats, so the query also ends on cyclic tables.
   */
  method RecursiveUnion(links: Links, start: set<Jti>) returns (result: set<Jti>)
    requires start <= links.Keys
    ensures result <= links.Keys && start <= result
    ensures Children(links, result) <= result
    ensures forall s | start <= s && Children(links, s) <= s :: result <= s
  {
    result := start;
    var working := start;
    while working != {}
      invariant start <= result <= links.Keys && working <= result
      invariant Children(links, result - working) <= result
      invariant forall s | start <= s && Children(links, s) <= s :: result <= s
      decreases links.Keys - result, working
    {
      var unseen := Children(links, working) - result;
      if unseen != {} {
        var x :| x in unseen;
        assert x in links.Keys - result && x !in links.Keys - (result + unseen);
      }
      result := result + unseen;
      working := unseen;
    }
    assert result - {} == result;
  }

  /** The CTE of the cascades: everything below `root`, not the root itself unless it is on a cycle. */
  method DescendantsQuery(links: Links, root: Jti) returns (result: set<Jti>)
    ensures result == Descendants(links, root)
  {
    result := RecursiveUnion(links, Children(links, {root}));
    DescendantsLeast(links, root);
    var d := Descendants(links, root);
    assert ClosedBelow(links, root, result);
    assert Children(links, {root}) <= d && Children(links, d) <= d;
  }

  /** What `root_jti` answers: the root row, if there is one, and everything below it. */
  ghost function Tree(links: Links, root: Jti): set<Jti> {
    if root in links then {root} + Descendants(links, root) else {}
  }

  method TreeQuery(links: Links, root: Jti) returns (result: set<Jti>)
    ensures result == Tree(links, root)
  {
    var start := set x | x in links && x == root;
    result := RecursiveUnion(links, start);
    DescendantsLeast(links, root);
    if root in links {
      var d := Descendants(links, root);
      assert ClosedBelow(links, root, result);
      assert start <= {root} + d && Children(links, {root} + d) <= {root} + d;
    } else {
      assert start <= {} && Children(links, {}) <= {};
    }
  }

  // ---------------------------------------------------------------- adding a row

  lemma {:induction false} UpWithRow(links: Links, child: Jti, parent: Jti, x: Jti, n: nat)
    requires child !in links && Up(links, x, n).Some?
    ensures Up(links[child := parent], x, n) == Up(links, x, n)
    decreases n
  {
    if n > 0 {
      UpWithRow(links, child, parent, links[x], n - 1);
    }
  }

  /** The ancestries after inserting a row: the old ones, and whatever now runs through the new link. */
  lemma AboveWithRow(links: Links, child: Jti, parent: Jti, a: Jti, x: Jti)
    requires child !in links
    ensures Above(links[child := parent], a, x) <==>
              || Above(links, a, x)
              || ((x == child || Above(links, child, x)) && (a == parent || Above(links, a, parent)))
  {
    var after := links[child := parent];
    if Above(after, a, x) {
      var n: nat :| n > 0 && Up(after, x, n) == Some(a);
      FirstVisit(links, child, parent, a, x, n);
    }
    if Above(links, a, x) {
      OldAncestry(links, child, parent, a, x);
    }
    if Above(links, child, x) {
      OldAncestry(links, child, parent, child, x);
    }
    if Above(links, a, parent) {
      OldAncestry(links, child, parent, a, parent);
    }
    AboveStep(after, a, child);
    if Above(after, child, x) && Above(after, a, child) {
      AboveTransitive(after, a, child, x);
    }
  }

  lemma OldAncestry(links: Links, child: Jti, parent: Jti, a: Jti, x: Jti)
    requires child !in links && Above(links, a, x)
    ensures Above(links[child := parent], a, x)
  {
    var n: nat :| n > 0 && Up(links, x, n) == Some(a);
    UpWithRow(links, child, parent, x, n);
  }

  lemma {:induction false} FirstVisit(links: Links, child: Jti, parent: Jti, a: Jti, x: Jti, n: nat)
    requires child !in links && n > 0 && Up(links[child := parent], x, n) == Some(a)
    ensures || Above(links, a, x)
            || ((x == child || Above(links, child, x)) && (a == parent || Above(links, a, parent)))
    decreases n
  {
    var after := links[child := parent];
    if x == child {
      if n > 1 {
        FirstVisit(links, child, parent, a, parent, n - 1);
      }
    } else {
      AboveStep(links, a, x);
      AboveStep(links, child, x);
      if n > 1 {
        FirstVisit(links, child, parent, a, links[x], n - 1);
      }
    }
  }
}
