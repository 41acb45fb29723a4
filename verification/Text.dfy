/** UTF-16 text as JavaScript sees it, and the two small types every module shares. */
module Text {

  datatype Option<+T> = None | Some(value: T)

  /** A UTF-16 code unit. Lone surrogates are legal members of a JavaScript string. */
  type Unit = n: int | 0 <= n < 0x10000

  type Str = seq<Unit>

  predicate IsHigh(c: Unit) { 0xD800 <= c <= 0xDBFF }

  predicate IsLow(c: Unit) { 0xDC00 <= c <= 0xDFFF }

  /** The order of Array.prototype.sort on strings: lexicographic by code unit. */
  predicate Less(a: Str, b: Str) {
    b != [] && (a == [] || a[0] < b[0] || (a[0] == b[0] && Less(a[1..], b[1..])))
  }

  /** The two agree up to place `n`, where the first ends or has the smaller code unit. */
  predicate FirstDiffers(a: Str, b: Str, n: nat) {
    && n <= |a| && n < |b| && a[..n] == b[..n]
    && (n == |a| || a[n] < b[n])
  }

  lemma {:induction false} DiffersIsLess(a: Str, b: Str, n: nat)
    requires FirstDiffers(a, b, n)
    ensures Less(a, b)
    decreases n
  {
    if n > 0 {
      assert a[0] == a[..n][0] == b[..n][0] == b[0];
      assert a[1..][..n - 1] == a[..n][1..] && b[1..][..n - 1] == b[..n][1..];
      DiffersIsLess(a[1..], b[1..], n - 1);
    }
  }

  lemma {:induction false} LessDiffers(a: Str, b: Str) returns (n: nat)
    requires Less(a, b)
    ensures FirstDiffers(a, b, n)
  {
    n := 0;
    if a != [] && a[0] == b[0] {
      var m := LessDiffers(a[1..], b[1..]);
      n := m + 1;
      assert a[..n] == [a[0]] + a[1..][..m] && b[..n] == [b[0]] + b[1..][..m];
    }
  }

  lemma LessIff(a: Str, b: Str)
    ensures Less(a, b) <==> exists n: nat :: FirstDiffers(a, b, n)
  {
    if Less(a, b) {
      var n := LessDiffers(a, b);
    }
    forall n: nat | FirstDiffers(a, b, n) ensures Less(a, b) {
      DiffersIsLess(a, b, n);
    }
  }

  lemma {:induction false} LessIsTransitive(a: Str, b: Str, c: Str)
    requires Less(a, b) && Less(b, c)
    ensures Less(a, c)
  {
    if a != [] && a[0] == b[0] == c[0] {
      LessIsTransitive(a[1..], b[1..], c[1..]);
    }
  }

  lemma {:induction false} LessIsTotal(a: Str, b: Str)
    ensures !(Less(a, b) && Less(b, a))
    ensures a == b || Less(a, b) || Less(b, a)
    ensures !Less(a, a)
  {
    if a != [] {
      LessIsTotal(a[1..], if b == [] then [] else b[1..]);
      if b != [] && a[0] == b[0] && a[1..] == b[1..] {
        assert a == [a[0]] + a[1..] == b;
      }
    }
  }

  /** Two sets that differ in one element at most. */
  lemma DifferAtOne<T>(a: set<T>, b: set<T>, x: T)
    requires a - {x} == b - {x}
    ensures |b| + (if x in a then 1 else 0) == |a| + if x in b then 1 else 0
  {
    assert x in a ==> a == (a - {x}) + {x};
    assert x in b ==> b == (b - {x}) + {x};
    assert x !in a ==> a == a - {x};
    assert x !in b ==> b == b - {x};
  }

  function Elems<T>(s: seq<T>): set<T> { set x | x in s }

  /** Strictly increasing: sorted and without repetition. */
  predicate Ascending(ks: seq<Str>) {
    forall i, j | 0 <= i < j < |ks| :: Less(ks[i], ks[j])
  }

  /** One insertion step of the sort. */
  function Insert(k: Str, ks: seq<Str>): (r: seq<Str>)
    requires Ascending(ks) && k !in ks
    ensures Ascending(r) && Elems(r) == Elems(ks) + {k}
  {
    if ks == [] then [k]
    else
      LessIsTotal(k, ks[0]);
      if Less(k, ks[0]) then
        assert Ascending([k] + ks) by {
          forall j | 1 <= j < |ks| ensures Less(k, ks[j]) { LessIsTransitive(k, ks[0], ks[j]); }
        }
        [k] + ks
      else
        var rest := Insert(k, ks[1..]);
        assert forall x | x in rest :: Less(ks[0], x) by {
          forall x | x in rest ensures Less(ks[0], x) { assert x in Elems(ks[1..]) + {k}; }
        }
        [ks[0]] + rest
  }

  function Sort(keys: seq<Str>): (r: seq<Str>)
    requires forall i, j | 0 <= i < j < |keys| :: keys[i] != keys[j]
    ensures Ascending(r) && Elems(r) == Elems(keys)
  {
    if keys == [] then []
    else
      var rest := Sort(keys[1..]);
      assert keys[0] !in rest by { assert keys[0] !in Elems(keys[1..]); }
      Insert(keys[0], rest)
  }

  /** A set of keys has one ascending enumeration, so sorting forgets the wire order. */
  lemma {:induction false} AscendingIsUnique(a: seq<Str>, b: seq<Str>)
    requires Ascending(a) && Ascending(b) && Elems(a) == Elems(b)
    ensures a == b
  {
    forall x ensures x in a <==> x in b { assert x in a <==> x in Elems(a); }
    assert b == [] || b[0] in b;
    if a != [] {
      assert a[0] in Elems(b);
      assert b[0] in Elems(a);
      var i :| 0 <= i < |b| && b[i] == a[0];
      var j :| 0 <= j < |a| && a[j] == b[0];
      LessIsTotal(a[0], b[0]);
      assert a[0] == b[0];
      TailElems(a);
      TailElems(b);
      AscendingIsUnique(a[1..], b[1..]);
    }
  }

  lemma TailElems(a: seq<Str>)
    requires Ascending(a) && a != []
    ensures Elems(a[1..]) == Elems(a) - {a[0]}
  {
    LessIsTotal(a[0], a[0]);
    forall x | x in Elems(a) - {a[0]} ensures x in Elems(a[1..]) {
      var i :| 0 <= i < |a| && a[i] == x;
      assert a[1..][i - 1] == x;
    }
  }

  /** The ascending enumeration of a key set. */
  ghost function Ordered(keys: set<Str>): (r: seq<Str>)
    ensures Ascending(r) && Elems(r) == keys
    ensures forall k | k in r :: k in keys
  {
    if keys == {} then []
    else
      var k :| k in keys;
      var rest := Ordered(keys - {k});
      var r := Insert(k, rest);
      assert forall x | x in r :: x in Elems(r);
      r
  }
}
