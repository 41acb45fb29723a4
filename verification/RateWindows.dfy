/** Which requests the limiter allows, counted over the actor's own requests. */
module RateWindows {
  import opened Text
  import opened RateLimit

  // ---------------------------------------------------------------- one bucket per actor

  /** The names in use hold no colon. */
  predicate IsName(bucketName: string) { ':' !in bucketName }

  lemma NameIsNoLonger(name: string, key: string, other: string, otherKey: string)
    requires IsName(other) && name + ":" + key == other + ":" + otherKey
    ensures |other| <= |name|
  {
    var text := name + ":" + key;
    assert text[|name|] == ':';
    if |name| < |other| {
      assert false;
    }
  }

  /** Two actors share a bucket exactly when name and key agree. */
  lemma BucketsAreSeparate(name: string, key: string, other: string, otherKey: string)
    requires IsName(name) && IsName(other)
    ensures FullKey(name, key) == FullKey(other, otherKey) <==> name == other && key == otherKey
  {
    var a, b := name + ":" + key, other + ":" + otherKey;
    if a == b {
      NameIsNoLonger(name, key, other, otherKey);
      NameIsNoLonger(other, otherKey, name, key);
      assert name == a[..|name|] == b[..|other|] == other;
      assert key == a[|name| + 1..] == b[|other| + 1..] == otherKey;
    }
  }

  // ---------------------------------------------------------------- windows

  predicate IsOwn(op: Op, name: string, key: string) { op.Request? && op.bucketName == name && op.key == key }

  /** The times of the actor's requests. */
  function OwnTimes(ops: seq<Op>, name: string, key: string): seq<int> {
    if ops == [] then []
    else
      OwnTimes(ops[..|ops| - 1], name, key)
      + if IsOwn(ops[|ops| - 1], name, key) then [ops[|ops| - 1].at] else []
  }

  /** The request that opened the window of the last one: the first, or the next to come a window length after one. */
  function Opener(times: seq<int>, w: int): (s: nat)
    requires times != []
    ensures s < |times|
  {
    if |times| == 1 then 0
    else
      var n := |times| - 1;
      var s := Opener(times[..n], w);
      if times[n] >= times[s] + w then n else s
  }

  /** Every request of the actor comes with this limit and window. */
  predicate OnePolicy(ops: seq<Op>, name: string, key: string, limit: int, w: int) {
    forall op | op in ops && IsOwn(op, name, key) :: op.limit == limit && op.windowMs == w
  }

  predicate Named(ops: seq<Op>) { forall op | op in ops && op.Request? :: IsName(op.bucketName) }

  /** A clock that never runs backwards and has reached `now`. */
  predicate Ordered(ops: seq<Op>, now: int) {
    && (forall i, j | 0 <= i < j < |ops| :: ops[i].at <= ops[j].at)
    && forall i | 0 <= i < |ops| :: ops[i].at <= now
  }

  /** What the actor's bucket holds, if a sweep has not found it stale. */
  ghost predicate Holds(l: Limiter, times: seq<int>, name: string, key: string, limit: int, w: int, now: int)
    requires limit > 0
  {
    var k := FullKey(name, key);
    if times == [] then k !in l.buckets
    else
      var s := Opener(times, w);
      if k in l.buckets
      then l.buckets[k] == Bucket(if |times| - s <= limit then |times| - s else limit, times[s] + w)
      else times[s] + w <= now
  }

  lemma {:induction false} FinalPush(l: Limiter, ops: seq<Op>, op: Op)
    ensures Final(l, ops + [op]) == After(Final(l, ops), op)
    decreases |ops|
  {
    hide After;
    if ops == [] {
      assert [] + [op] == [op] && [op][1..] == [];
      assert Final(After(l, op), []) == After(l, op);
    } else {
      FinalPush(After(l, ops[0]), ops[1..], op);
      assert (ops + [op])[1..] == ops[1..] + [op];
    }
  }

  lemma OpenerPush(times: seq<int>, t: int, w: int)
    requires times != []
    ensures Opener(times + [t], w) == if t >= times[Opener(times, w)] + w then |times| else Opener(times, w)
  {
    assert (times + [t])[..|times|] == times;
  }

  /** The decision that the window calls for. */
  function Expected(times: seq<int>, limit: int, w: int): Decision
    requires times != []
  {
    var s := Opener(times, w);
    var before := |times| - 1 - s;
    Decision(before < limit, Some(if before < limit then limit - before - 1 else 0), times[s] + w, limit)
  }

  lemma OwnRequest(l: Limiter, times: seq<int>, op: Op, limit: int, w: int, now: int)
    requires op.Request? && op.limit == limit && op.windowMs == w && limit > 0 && now <= op.at
    requires Holds(l, times, op.bucketName, op.key, limit, w, now)
    ensures DecisionOf(l, op) == Expected(times + [op.at], limit, w)
    ensures Holds(After(l, op), times + [op.at], op.bucketName, op.key, limit, w, op.at)
  {
    if times == [] {
      assert times + [op.at] == [op.at];
    } else {
      OpenerPush(times, op.at, w);
    }
    hide FullKey, Opener;
    if times == [] {
      OpensAlone(op.at, w);
    }
  }

  lemma OpensAlone(t: int, w: int)
    ensures Opener([t], w) == 0
  {
  }

  lemma OtherOp(l: Limiter, times: seq<int>, op: Op, name: string, key: string, limit: int, w: int, now: int)
    requires !IsOwn(op, name, key) && IsName(name) && (op.Request? ==> IsName(op.bucketName)) && now <= op.at
    requires limit > 0 && Holds(l, times, name, key, limit, w, now)
    ensures Holds(After(l, op), times, name, key, limit, w, op.at)
  {
    if op.Request? {
      BucketsAreSeparate(name, key, op.bucketName, op.key);
    }
    hide FullKey, Opener;
  }

  lemma Earlier(ops: seq<Op>, name: string, key: string, limit: int, w: int, now: int)
    requires ops != [] && Named(ops) && Ordered(ops, now) && OnePolicy(ops, name, key, limit, w)
    ensures var n := |ops| - 1;
            var before, op := ops[..n], ops[n];
            && ops == before + [op] && op.at <= now
            && Named(before) && Ordered(before, op.at) && OnePolicy(before, name, key, limit, w)
            && (op.Request? ==> IsName(op.bucketName))
            && (IsOwn(op, name, key) ==> op.limit == limit && op.windowMs == w)
  {
    var n := |ops| - 1;
    assert ops[n] in ops && forall x | x in ops[..n] :: x in ops;
  }

  lemma {:induction false} BucketHolds(ops: seq<Op>, name: string, key: string, limit: int, w: int, now: int)
    requires limit > 0 && IsName(name) && Named(ops) && Ordered(ops, now) && OnePolicy(ops, name, key, limit, w)
    ensures Holds(Final(FRESH, ops), OwnTimes(ops, name, key), name, key, limit, w, now)
  {
    hide After, Opener, FullKey, IsName, Named, Ordered, OnePolicy, Holds;
    if ops == [] {
      StartHolds(name, key, limit, w, now);
    } else {
      var n := |ops| - 1;
      var before, op := ops[..n], ops[n];
      Earlier(ops, name, key, limit, w, now);
      BucketHolds(before, name, key, limit, w, op.at);
      FinalPush(FRESH, before, op);
      var times := OwnTimes(before, name, key);
      OwnPush(before, op, name, key);
      hide Final, OwnTimes;
      if IsOwn(op, name, key) {
        OwnRequest(Final(FRESH, before), times, op, limit, w, op.at);
      } else {
        OtherOp(Final(FRESH, before), times, op, name, key, limit, w, op.at);
      }
      HoldsLater(Final(FRESH, ops), OwnTimes(ops, name, key), name, key, limit, w, op.at, now);
    }
  }

  lemma StartHolds(name: string, key: string, limit: int, w: int, now: int)
    requires limit > 0
    ensures Holds(Final(FRESH, []), OwnTimes([], name, key), name, key, limit, w, now)
  {
  }

  lemma HoldsLater(l: Limiter, times: seq<int>, name: string, key: string, limit: int, w: int, now: int, later: int)
    requires limit > 0 && Holds(l, times, name, key, limit, w, now) && now <= later
    ensures Holds(l, times, name, key, limit, w, later)
  {
  }

  lemma OwnPush(before: seq<Op>, op: Op, name: string, key: string)
    ensures OwnTimes(before + [op], name, key) ==
            if IsOwn(op, name, key) then OwnTimes(before, name, key) + [op.at] else OwnTimes(before, name, key)
  {
    assert (before + [op])[..|before|] == before;
    assert OwnTimes(before, name, key) + [] == OwnTimes(before, name, key);
  }

  /**
   * After any run, sweeps and other actors' requests included, exactly the
   * first `limit` requests of each of the actor's windows are allowed; the
   * decision counts down what is left and names the end of the window.
   */
  lemma FirstOfEachWindow(ops: seq<Op>, op: Op)
    requires op.Request? && op.limit > 0 && IsName(op.bucketName) && Named(ops) && Ordered(ops, op.at)
    requires OnePolicy(ops, op.bucketName, op.key, op.limit, op.windowMs)
    ensures var times := OwnTimes(ops, op.bucketName, op.key) + [op.at];
            var s := Opener(times, op.windowMs);
            var before := |times| - 1 - s;
            var d := DecisionOf(Final(FRESH, ops), op);
            && (d.allowed <==> before < op.limit)
            && d.remaining == Some(if before < op.limit then op.limit - before - 1 else 0)
            && d.resetAt == times[s] + op.windowMs && d.limit == op.limit
  {
    hide After, Opener, FullKey, IsName, Final, OwnTimes;
    BucketHolds(ops, op.bucketName, op.key, op.limit, op.windowMs, op.at);
    OwnRequest(Final(FRESH, ops), OwnTimes(ops, op.bucketName, op.key), op, op.limit, op.windowMs, op.at);
    hide Holds, DecisionOf;
  }

  /** A limit of zero or less allows everything and books nothing. */
  lemma DisabledAllows(l: Limiter, op: Op)
    requires op.Request? && op.limit <= 0
    ensures After(l, op) == l
    ensures DecisionOf(l, op) == Decision(true, None, 0, op.limit)
  {
  }
}
