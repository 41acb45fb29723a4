/** The fixed-window rate limiter: its numeric bound over runs, its drop totals and its sweep. */
module RateLimit {
  import opened Text

  datatype Bucket = Bucket(count: nat, resetAt: int)

  datatype Limiter = Limiter(buckets: map<string, Bucket>, drops: map<string, nat>)

  /** `remaining` is absent when the bucket is disabled. */
  datatype Decision = Decision(allowed: bool, remaining: Option<int>, resetAt: int, limit: int)

  const FRESH := Limiter(map[], map[])

  function FullKey(bucketName: string, key: string): string { bucketName + ":" + key }

  function Live(l: Limiter, fullKey: string, now: int): Option<Bucket> {
    if fullKey in l.buckets && l.buckets[fullKey].resetAt > now then Some(l.buckets[fullKey]) else None
  }

  function Dropped(l: Limiter, bucketName: string): nat {
    if bucketName in l.drops then l.drops[bucketName] else 0
  }

  function Check(l: Limiter, bucketName: string, key: string, limit: int, windowMs: int, now: int): (Limiter, Decision)
  {
    if limit <= 0 then (l, Decision(true, None, 0, limit))
    else
      var fullKey := FullKey(bucketName, key);
      var bucket := match Live(l, fullKey, now) case Some(b) => b case None => Bucket(0, now + windowMs);
      if bucket.count >= limit then
        (Limiter(l.buckets[fullKey := bucket], l.drops[bucketName := Dropped(l, bucketName) + 1]),
         Decision(false, Some(0), bucket.resetAt, limit))
      else
        var b := bucket.(count := bucket.count + 1);
        (l.(buckets := l.buckets[fullKey := b]), Decision(true, Some(limit - b.count), b.resetAt, limit))
  }

  function Gc(l: Limiter, now: int): Limiter {
    l.(buckets := map k | k in l.buckets && l.buckets[k].resetAt > now :: l.buckets[k])
  }

  class RateLimiter {
    var buckets: map<string, Bucket>
    var drops: map<string, nat>

    function State(): Limiter
      reads this
    {
      Limiter(buckets, drops)
    }

    constructor ()
      ensures State() == FRESH
    {
      buckets, drops := map[], map[];
    }

    method CheckRequest(bucketName: string, key: string, limit: int, windowMs: int, now: int) returns (d: Decision)
      modifies this
      ensures (State(), d) == Check(old(State()), bucketName, key, limit, windowMs, now)
    {
      if limit <= 0 {
        return Decision(true, None, 0, limit);
      }
      var fullKey := FullKey(bucketName, key);
      if fullKey !in buckets || buckets[fullKey].resetAt <= now {
        buckets := buckets[fullKey := Bucket(0, now + windowMs)];
      }
      var bucket := buckets[fullKey];
      if bucket.count >= limit {
        drops := drops[bucketName := (if bucketName in drops then drops[bucketName] else 0) + 1];
        assert buckets == old(buckets)[fullKey := bucket];
        return Decision(false, Some(0), bucket.resetAt, limit);
      }
      bucket := bucket.(count := bucket.count + 1);
      buckets := buckets[fullKey := bucket];
      assert buckets == old(buckets)[fullKey := bucket];
      return Decision(true, Some(limit - bucket.count), bucket.resetAt, limit);
    }

    method Sweep(now: int)
      modifies this
      ensures State() == Gc(old(State()), now) && drops == old(drops)
      ensures forall k :: k in buckets <==> k in old(buckets) && old(buckets)[k].resetAt > now
      ensures forall k | k in buckets :: buckets[k] == old(buckets)[k]
    {
      var todo := buckets.Keys;
      while todo != {}
        invariant todo <= buckets.Keys <= old(buckets).Keys
        invariant drops == old(drops)
        invariant forall k | k in buckets :: buckets[k] == old(buckets)[k]
        invariant forall k | k in old(buckets) && k !in todo :: k in buckets <==> old(buckets)[k].resetAt > now
        decreases todo
      {
        var k :| k in todo;
        if buckets[k].resetAt <= now {
          buckets := buckets - {k};
        }
        todo := todo - {k};
      }
    }
  }

  // ---------------------------------------------------------------- runs

  datatype Op = Request(bucketName: string, key: string, limit: int, windowMs: int, at: int) | Collect(at: int)

  function After(l: Limiter, op: Op): Limiter {
    match op
    case Request(name, key, limit, windowMs, at) => Check(l, name, key, limit, windowMs, at).0
    case Collect(at) => Gc(l, at)
  }

  function DecisionOf(l: Limiter, op: Op): Decision
    requires op.Request?
  {
    Check(l, op.bucketName, op.key, op.limit, op.windowMs, op.at).1
  }

  /** A clock that never runs backwards. */
  predicate Monotone(ops: seq<Op>, from: int)
    decreases |ops|
  {
    ops == [] || (from <= ops[0].at && Monotone(ops[1..], ops[0].at))
  }

  function Decisions(l: Limiter, ops: seq<Op>): seq<Decision>
    decreases |ops|
  {
    if ops == [] then []
    else (if ops[0].Request? then [DecisionOf(l, ops[0])] else []) + Decisions(After(l, ops[0]), ops[1..])
  }

  function Requests(ops: seq<Op>): seq<Op>
    decreases |ops|
  {
    if ops == [] then [] else (if ops[0].Request? then [ops[0]] else []) + Requests(ops[1..])
  }

  // ---------------------------------------------------------------- sweeping is invisible

  /** Two limiters that agree on every bucket still alive at `now`. */
  ghost predicate Agree(a: Limiter, b: Limiter, now: int) {
    a.drops == b.drops && forall k :: Live(a, k, now) == Live(b, k, now)
  }

  lemma AgreeLater(a: Limiter, b: Limiter, now: int, later: int)
    requires Agree(a, b, now) && now <= later
    ensures Agree(a, b, later)
  {
    forall k ensures Live(a, k, later) == Live(b, k, later) {
      assert Live(a, k, now) == Live(b, k, now);
    }
  }

  lemma RequestAgrees(a: Limiter, b: Limiter, op: Op)
    requires op.Request? && Agree(a, b, op.at)
    ensures DecisionOf(a, op) == DecisionOf(b, op) && Agree(After(a, op), After(b, op), op.at)
  {
    assert Live(a, FullKey(op.bucketName, op.key), op.at) == Live(b, FullKey(op.bucketName, op.key), op.at);
    forall k ensures Live(After(a, op), k, op.at) == Live(After(b, op), k, op.at) {
      assert Live(a, k, op.at) == Live(b, k, op.at);
    }
  }

  lemma {:induction false} SweepsDoNotMatter(a: Limiter, b: Limiter, ops: seq<Op>, from: int)
    requires Agree(a, b, from) && Monotone(ops, from)
    ensures Decisions(a, ops) == Decisions(b, Requests(ops))
    decreases |ops|
  {
    if ops != [] {
      var op, rest := ops[0], ops[1..];
      AgreeLater(a, b, from, op.at);
      if op.Request? {
        RequestAgrees(a, b, op);
        SweepsDoNotMatter(After(a, op), After(b, op), rest, op.at);
        assert Requests(ops)[0] == op && Requests(ops)[1..] == Requests(rest);
      } else {
        forall k ensures Live(Gc(a, op.at), k, op.at) == Live(b, k, op.at) {
          assert Live(a, k, op.at) == Live(b, k, op.at);
        }
        SweepsDoNotMatter(After(a, op), b, rest, op.at);
        assert [] + Decisions(After(a, op), rest) == Decisions(After(a, op), rest);
        assert [] + Requests(rest) == Requests(rest);
      }
    }
  }

  /** Collecting stale buckets, wherever and however often, changes no decision. */
  lemma GcChangesNoDecision(l: Limiter, ops: seq<Op>, others: seq<Op>, from: int)
    requires Monotone(ops, from) && Monotone(others, from) && Requests(ops) == Requests(others)
    ensures Decisions(l, ops) == Decisions(l, others)
  {
    SweepsDoNotMatter(l, l, ops, from);
    SweepsDoNotMatter(l, l, others, from);
  }

  // ---------------------------------------------------------------- drop totals

  function Denials(l: Limiter, ops: seq<Op>, bucketName: string): nat
    decreases |ops|
  {
    if ops == [] then 0
    else
      (if ops[0].Request? && ops[0].bucketName == bucketName && !DecisionOf(l, ops[0]).allowed then 1 else 0)
      + Denials(After(l, ops[0]), ops[1..], bucketName)
  }

  function Final(l: Limiter, ops: seq<Op>): Limiter
    decreases |ops|
  {
    if ops == [] then l else Final(After(l, ops[0]), ops[1..])
  }

  lemma {:induction false} DropTotalsAreDenials(l: Limiter, ops: seq<Op>, bucketName: string)
    ensures Dropped(Final(l, ops), bucketName) == Dropped(l, bucketName) + Denials(l, ops, bucketName)
    decreases |ops|
  {
    if ops != [] {
      DropTotalsAreDenials(After(l, ops[0]), ops[1..], bucketName);
    }
  }

  // ---------------------------------------------------------------- the bound

  /** When requests on `fullKey` were allowed. */
  function AllowedTimes(l: Limiter, ops: seq<Op>, fullKey: string): seq<int>
    decreases |ops|
  {
    if ops == [] then []
    else
      (if ops[0].Request? && FullKey(ops[0].bucketName, ops[0].key) == fullKey && DecisionOf(l, ops[0]).allowed
       then [ops[0].at] else [])
      + AllowedTimes(After(l, ops[0]), ops[1..], fullKey)
  }

  /** How many of `times` lie in `[lo, hi)`. */
  function Count(times: seq<int>, lo: int, hi: int): nat {
    if times == [] then 0
    else Count(times[..|times| - 1], lo, hi) + if lo <= times[|times| - 1] < hi then 1 else 0
  }

  lemma CountPush(times: seq<int>, t: int, lo: int, hi: int)
    ensures Count(times + [t], lo, hi) == Count(times, lo, hi) + if lo <= t < hi then 1 else 0
  {
    assert (times + [t])[..|times|] == times;
  }

  /** An interval covered by two others holds no more than both of them. */
  lemma {:induction false} CountCover(times: seq<int>, lo: int, hi: int, a: int, b: int, c: int)
    requires forall i | 0 <= i < |times| && lo <= times[i] < hi :: a <= times[i] < c
    ensures Count(times, lo, hi) <= Count(times, a, b) + Count(times, b, c)
  {
    if times != [] {
      var t := times[|times| - 1];
      assert lo <= t < hi ==> a <= t < c;
      CountCover(times[..|times| - 1], lo, hi, a, b, c);
    }
  }

  lemma {:induction false} CountNone(times: seq<int>, lo: int, hi: int)
    requires forall i | 0 <= i < |times| :: !(lo <= times[i] < hi)
    ensures Count(times, lo, hi) == 0
  {
    if times != [] {
      CountNone(times[..|times| - 1], lo, hi);
    }
  }

  /**
   * What the bucket of a key remembers of the allowed requests so far: those
   * of its own window (the first of them at its very start), and that the
   * window before cannot have left more than `limit - 1` in reach.
   */
  ghost predicate Remembers(l: Limiter, fullKey: string, limit: int, w: int, times: seq<int>, now: int) {
    && (fullKey !in l.buckets ==> times == [])
    && (fullKey in l.buckets ==>
          var b := l.buckets[fullKey];
          var start := b.resetAt - w;
          && start <= now && b.count <= limit
          && (forall i | 0 <= i < |times| :: times[i] < b.resetAt)
          && Count(times, start, b.resetAt) <= b.count
          && Count(times, start + 1, b.resetAt) + 1 <= b.count
          && Count(times, start - w + 1, start) <= limit - 1)
  }

  /** How many of `times` lie in the interval of length `w` that starts at `lo`. */
  function InWindow(times: seq<int>, lo: int, w: int): nat { Count(times, lo, lo + w) }

  ghost predicate Bounded(times: seq<int>, limit: int, w: int) {
    forall lo :: InWindow(times, lo, w) <= 2 * limit - 1
  }

  lemma AllowedKeeps(l: Limiter, op: Op, times: seq<int>, from: int)
    requires op.Request? && op.limit > 0 && op.windowMs > 0 && from <= op.at
    requires Remembers(l, FullKey(op.bucketName, op.key), op.limit, op.windowMs, times, from)
    requires Bounded(times, op.limit, op.windowMs)
    ensures var after := if DecisionOf(l, op).allowed then times + [op.at] else times;
            && Remembers(After(l, op), FullKey(op.bucketName, op.key), op.limit, op.windowMs, after, op.at)
            && Bounded(after, op.limit, op.windowMs)
  {
    var fullKey, limit, w, now := FullKey(op.bucketName, op.key), op.limit, op.windowMs, op.at;
    var b := CurrentBucket(l, op);
    CheckShape(l, op);
    CurrentInBucket(l, op, times, from);
    hide Check, DecisionOf, After, Count, Bounded;
    if b.count < limit {
      Admit(b, limit, w, times, now);
    }
  }

  /** The bucket a request is counted in. */
  function CurrentBucket(l: Limiter, op: Op): Bucket
    requires op.Request?
  {
    var live := Live(l, FullKey(op.bucketName, op.key), op.at);
    if live.Some? then live.value else Bucket(0, op.at + op.windowMs)
  }

  lemma CheckShape(l: Limiter, op: Op)
    requires op.Request? && op.limit > 0
    ensures var fullKey := FullKey(op.bucketName, op.key);
            var b := CurrentBucket(l, op);
            && (DecisionOf(l, op).allowed <==> b.count < op.limit)
            && fullKey in After(l, op).buckets
            && After(l, op).buckets[fullKey] == if b.count < op.limit then b.(count := b.count + 1) else b
  {
  }

  lemma CurrentInBucket(l: Limiter, op: Op, times: seq<int>, from: int)
    requires op.Request? && op.limit > 0 && op.windowMs > 0 && from <= op.at
    requires Remembers(l, FullKey(op.bucketName, op.key), op.limit, op.windowMs, times, from)
    ensures InBucket(CurrentBucket(l, op), op.limit, op.windowMs, times, op.at)
  {
    if Live(l, FullKey(op.bucketName, op.key), op.at).None? {
      NewWindow(l, FullKey(op.bucketName, op.key), op.limit, op.windowMs, times, from, op.at);
    }
    hide Count;
  }

  /** The part of `Remembers` about one bucket alive at `now`. */
  ghost predicate InBucket(b: Bucket, limit: int, w: int, times: seq<int>, now: int) {
    var start := b.resetAt - w;
    && start <= now < b.resetAt && b.count <= limit
    && (forall i | 0 <= i < |times| :: times[i] < b.resetAt)
    && Count(times, start, b.resetAt) <= b.count
    && (if start < now || b.count > 0 then Count(times, start + 1, b.resetAt) + 1 <= b.count
        else Count(times, start + 1, b.resetAt) == 0)
    && Count(times, start - w + 1, start) <= limit - 1
  }

  lemma Admit(b: Bucket, limit: int, w: int, times: seq<int>, now: int)
    requires w > 0 && InBucket(b, limit, w, times, now) && b.count < limit && Bounded(times, limit, w)
    ensures InBucket(b.(count := b.count + 1), limit, w, times + [now], now) && Bounded(times + [now], limit, w)
  {
    hide Count;
    var start := b.resetAt - w;
    CountPush(times, now, start, b.resetAt);
    CountPush(times, now, start + 1, b.resetAt);
    CountPush(times, now, start - w + 1, start);
    forall lo ensures InWindow(times + [now], lo, w) <= 2 * limit - 1 {
      assert InWindow(times, lo, w) <= 2 * limit - 1;
      CountPush(times, now, lo, lo + w);
      if lo <= now < lo + w {
        CountCover(times, lo, lo + w, start - w + 1, start, b.resetAt);
      }
    }
  }

  /** A new window starts empty, and the one before left at most `limit - 1` requests within reach. */
  lemma NewWindow(l: Limiter, fullKey: string, limit: int, w: int, times: seq<int>, from: int, now: int)
    requires limit > 0 && w > 0 && from <= now && Live(l, fullKey, now).None?
    requires Remembers(l, fullKey, limit, w, times, from)
    ensures forall i | 0 <= i < |times| :: times[i] < now
    ensures Count(times, now, now + w) == 0 && Count(times, now + 1, now + w) == 0
    ensures Count(times, now - w + 1, now) <= limit - 1
  {
    CountNone(times, now, now + w);
    CountNone(times, now + 1, now + w);
    if fullKey in l.buckets {
      var b := l.buckets[fullKey];
      CountNone(times, now, b.resetAt);
      CountCover(times, now - w + 1, now, b.resetAt - w + 1, b.resetAt, b.resetAt);
      CountNone(times, b.resetAt, b.resetAt);
    }
  }

  predicate FixedPolicy(ops: seq<Op>, fullKey: string, limit: int, w: int) {
    forall i | 0 <= i < |ops| && ops[i].Request? && FullKey(ops[i].bucketName, ops[i].key) == fullKey ::
      ops[i].limit == limit && ops[i].windowMs == w
  }

  lemma {:induction false} BoundFrom(
    l: Limiter, ops: seq<Op>, fullKey: string, limit: int, w: int, times: seq<int>, from: int)
    requires limit > 0 && w > 0 && Monotone(ops, from) && FixedPolicy(ops, fullKey, limit, w)
    requires forall i | 0 <= i < |ops| :: ops[i].Request?
    requires Remembers(l, fullKey, limit, w, times, from) && Bounded(times, limit, w)
    ensures Bounded(times + AllowedTimes(l, ops, fullKey), limit, w)
    decreases |ops|
  {
    hide Remembers, Bounded, After, DecisionOf, AllowedTimes, Monotone, FixedPolicy;
    if ops == [] {
      NothingAllowed(l, fullKey, 0, 0);
      assert times + [] == times;
    } else {
      var op, next := ops[0], After(l, ops[0]);
      var now := if FullKey(op.bucketName, op.key) == fullKey && DecisionOf(l, op).allowed then [op.at] else [];
      var rest := AllowedTimes(next, ops[1..], fullKey);
      TailOfRun(ops, fullKey, limit, w, from);
      OneRequest(l, op, fullKey, limit, w, times, from);
      AllowedCons(l, ops, fullKey);
      BoundFrom(next, ops[1..], fullKey, limit, w, times + now, op.at);
      assert times + (now + rest) == times + now + rest;
    }
  }

  lemma TailOfRun(ops: seq<Op>, fullKey: string, limit: int, w: int, from: int)
    requires ops != [] && Monotone(ops, from) && FixedPolicy(ops, fullKey, limit, w)
    ensures from <= ops[0].at && Monotone(ops[1..], ops[0].at) && FixedPolicy(ops[1..], fullKey, limit, w)
    ensures ops[0].Request? && FullKey(ops[0].bucketName, ops[0].key) == fullKey ==>
              ops[0].limit == limit && ops[0].windowMs == w
  {
  }

  lemma AllowedCons(l: Limiter, ops: seq<Op>, fullKey: string)
    requires ops != [] && ops[0].Request?
    ensures AllowedTimes(l, ops, fullKey) ==
            (if FullKey(ops[0].bucketName, ops[0].key) == fullKey && DecisionOf(l, ops[0]).allowed
             then [ops[0].at] else [])
            + AllowedTimes(After(l, ops[0]), ops[1..], fullKey)
  {
  }

  lemma OneRequest(l: Limiter, op: Op, fullKey: string, limit: int, w: int, times: seq<int>, from: int)
    requires op.Request? && limit > 0 && w > 0 && from <= op.at
    requires FullKey(op.bucketName, op.key) == fullKey ==> op.limit == limit && op.windowMs == w
    requires Remembers(l, fullKey, limit, w, times, from) && Bounded(times, limit, w)
    ensures var now := if FullKey(op.bucketName, op.key) == fullKey && DecisionOf(l, op).allowed then [op.at] else [];
            Remembers(After(l, op), fullKey, limit, w, times + now, op.at) && Bounded(times + now, limit, w)
  {
    assert times + [] == times;
    if FullKey(op.bucketName, op.key) == fullKey {
      AllowedKeeps(l, op, times, from);
    }
  }

  /**
   * Over any run with a fixed limit and window, sweeps included, any interval
   * of one window's length sees at most 2 * limit - 1 allowed requests per key.
   */
  lemma WindowBound(ops: seq<Op>, fullKey: string, limit: int, w: int, from: int, lo: int)
    requires limit > 0 && Monotone(ops, from) && FixedPolicy(ops, fullKey, limit, w)
    ensures InWindow(AllowedTimes(FRESH, ops, fullKey), lo, w) <= 2 * limit - 1
  {
    if w <= 0 {
      CountNone(AllowedTimes(FRESH, ops, fullKey), lo, lo + w);
    } else {
      RequestsOnly(ops, fullKey, limit, w, from);
      AllowedWithoutSweeps(FRESH, FRESH, ops, fullKey, from);
      var times := AllowedTimes(FRESH, Requests(ops), fullKey);
      BoundFrom(FRESH, Requests(ops), fullKey, limit, w, [], from);
      assert [] + times == times;
    }
  }

  lemma {:induction false} RequestsOnly(ops: seq<Op>, fullKey: string, limit: int, w: int, from: int)
    requires Monotone(ops, from) && FixedPolicy(ops, fullKey, limit, w)
    ensures Monotone(Requests(ops), from) && FixedPolicy(Requests(ops), fullKey, limit, w)
    ensures forall i | 0 <= i < |Requests(ops)| :: Requests(ops)[i].Request?
    decreases |ops|
  {
    if ops != [] {
      RequestsOnly(ops[1..], fullKey, limit, w, ops[0].at);
      if ops[0].Request? {
        assert Requests(ops)[1..] == Requests(ops[1..]);
      } else {
        MonotoneEarlier(Requests(ops[1..]), ops[0].at, from);
        assert Requests(ops) == Requests(ops[1..]);
      }
    }
  }

  lemma MonotoneEarlier(ops: seq<Op>, from: int, earlier: int)
    requires Monotone(ops, from) && earlier <= from
    ensures Monotone(ops, earlier)
  {
  }

  lemma {:induction false} AllowedWithoutSweeps(a: Limiter, b: Limiter, ops: seq<Op>, fullKey: string, from: int)
    requires Agree(a, b, from) && Monotone(ops, from)
    ensures AllowedTimes(a, ops, fullKey) == AllowedTimes(b, Requests(ops), fullKey)
    decreases |ops|
  {
    if ops != [] {
      var op, rest := ops[0], ops[1..];
      AgreeLater(a, b, from, op.at);
      if op.Request? {
        RequestAgrees(a, b, op);
        AllowedWithoutSweeps(After(a, op), After(b, op), rest, fullKey, op.at);
        assert Requests(ops)[0] == op && Requests(ops)[1..] == Requests(rest);
      } else {
        forall k ensures Live(Gc(a, op.at), k, op.at) == Live(b, k, op.at) {
          assert Live(a, k, op.at) == Live(b, k, op.at);
        }
        AllowedWithoutSweeps(After(a, op), b, rest, fullKey, op.at);
        assert [] + Requests(rest) == Requests(rest);
      }
    }
  }

  // ---------------------------------------------------------------- the bound is attained

  function Burst(bucketName: string, key: string, limit: int, w: int, at: int, n: nat): seq<Op> {
    seq(n, _ => Request(bucketName, key, limit, w, at))
  }

  lemma FirstOfBurst(l: Limiter, ops: seq<Op>, k: string)
    requires ops != [] && ops[0].Request? && FullKey(ops[0].bucketName, ops[0].key) == k
    requires ops[0].limit > 0 && ops[0].windowMs > 0
    requires var op := ops[0];
             if Live(l, k, op.at).Some? then Live(l, k, op.at).value.count < op.limit else true
    ensures var op := ops[0];
            var next := After(l, op);
            && AllowedTimes(l, ops, k) == [op.at] + AllowedTimes(next, ops[1..], k)
            && Live(next, k, op.at) ==
               Some(if Live(l, k, op.at).Some? then Live(l, k, op.at).value.(count := Live(l, k, op.at).value.count + 1)
                    else Bucket(1, op.at + op.windowMs))
  {
  }

  function Times(at: int, n: nat): seq<int> { seq(n, _ => at) }

  lemma {:induction false} BurstAllowed(
    l: Limiter, bucketName: string, key: string, limit: int, w: int, at: int, n: nat, rest: seq<Op>)
    returns (after: Limiter)
    requires limit > 0 && w > 0
    requires var k := FullKey(bucketName, key);
             if Live(l, k, at).Some? then Live(l, k, at).value.count + n <= limit else 0 < n <= limit
    ensures var k := FullKey(bucketName, key);
            && k in after.buckets
            && after.buckets[k] ==
               (if Live(l, k, at).Some? then Live(l, k, at).value.(count := Live(l, k, at).value.count + n)
                else Bucket(n, at + w))
            && AllowedTimes(l, Burst(bucketName, key, limit, w, at, n) + rest, k) ==
               Times(at, n) + AllowedTimes(after, rest, k)
    decreases n
  {
    hide AllowedTimes, Burst, Times, After;
    var k := FullKey(bucketName, key);
    BurstSplits(bucketName, key, limit, w, at, n, rest);
    if n == 0 {
      after := l;
      assert Times(at, 0) + AllowedTimes(l, rest, k) == AllowedTimes(l, rest, k);
    } else {
      var ops := Burst(bucketName, key, limit, w, at, n) + rest;
      FirstOfBurst(l, ops, k);
      after := BurstAllowed(After(l, ops[0]), bucketName, key, limit, w, at, n - 1, rest);
      assert [at] + (Times(at, n - 1) + AllowedTimes(after, rest, k)) == Times(at, n) + AllowedTimes(after, rest, k);
    }
  }

  lemma BurstSplits(bucketName: string, key: string, limit: int, w: int, at: int, n: nat, rest: seq<Op>)
    ensures n == 0 ==> Burst(bucketName, key, limit, w, at, 0) + rest == rest && Times(at, 0) == []
    ensures n > 0 ==>
              var ops := Burst(bucketName, key, limit, w, at, n) + rest;
              && ops != [] && ops[0] == Request(bucketName, key, limit, w, at)
              && ops[1..] == Burst(bucketName, key, limit, w, at, n - 1) + rest
              && Times(at, n) == [at] + Times(at, n - 1)
  {
  }

  lemma {:induction false} CountTimes(times: seq<int>, at: int, n: nat, lo: int, hi: int)
    ensures Count(times + Times(at, n), lo, hi) == Count(times, lo, hi) + if lo <= at < hi then n else 0
  {
    if n == 0 {
      assert times + Times(at, 0) == times;
    } else {
      CountTimes(times, at, n - 1, lo, hi);
      assert times + Times(at, n) == times + Times(at, n - 1) + [at];
      CountPush(times + Times(at, n - 1), at, lo, hi);
    }
  }

  lemma NothingAllowed(l: Limiter, k: string, lo: int, hi: int)
    ensures AllowedTimes(l, [], k) == [] && Count([], lo, hi) == 0
  {
  }

  /** The bound cannot be lowered: a late burst and an early one in the next window attain it. */
  lemma BoundIsAttained(bucketName: string, key: string, limit: int, w: int)
    requires limit > 0 && w > 1
    ensures var run := Burst(bucketName, key, limit, w, 0, 1)
                       + (Burst(bucketName, key, limit, w, w - 1, limit - 1)
                          + (Burst(bucketName, key, limit, w, w, limit) + []));
            InWindow(AllowedTimes(FRESH, run, FullKey(bucketName, key)), 1, w) == 2 * limit - 1
  {
    hide Burst, AllowedTimes, Count, Times, After;
    var k := FullKey(bucketName, key);
    var last := Burst(bucketName, key, limit, w, w, limit);
    var late := Burst(bucketName, key, limit, w, w - 1, limit - 1);
    var l1 := BurstAllowed(FRESH, bucketName, key, limit, w, 0, 1, late + (last + []));
    var l2 := BurstAllowed(l1, bucketName, key, limit, w, w - 1, limit - 1, last + []);
    var l3 := BurstAllowed(l2, bucketName, key, limit, w, w, limit, []);
    var a, b, c := Times(0, 1), Times(w - 1, limit - 1), Times(w, limit);
    assert AllowedTimes(l3, [], k) == [] && Count([], 1, 1 + w) == 0 by { NothingAllowed(l3, k, 1, 1 + w); }
    assert a + (b + (c + [])) == [] + a + b + c;
    CountTimes([], 0, 1, 1, 1 + w);
    CountTimes([] + a, w - 1, limit - 1, 1, 1 + w);
    CountTimes([] + a + b, w, limit, 1, 1 + w);
  }
}
