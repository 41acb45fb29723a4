/**
 * The JWKS cache of the trust anchors: refresher passes, PATCHes, creations
 * and deletions interleave between a pass's select, fetch and write.
 */
module Jwks {
  import opened Text

  type AnchorId = string
  type Url = string

  /** A fetched key set, tagged with the pair of URLs it was fetched for. */
  datatype Keyset = Keyset(issuerUrl: Url, jwksUrl: Option<Url>, keys: string)

  datatype Anchor = Anchor(
    namespace: string, issuerUrl: Url, jwksUrl: Option<Url>, cache: Option<Keyset>, cachedAt: Option<int>)

  type Table = map<AnchorId, Anchor>

  /** What a pass remembers of an anchor it selected. */
  datatype Snapshot = Snapshot(id: AnchorId, issuerUrl: Url, jwksUrl: Option<Url>)

  /** A pass in flight: the anchors left, and the key set just fetched for the first of them. */
  datatype Pass = Pass(todo: seq<Snapshot>, fetched: Option<Keyset>, refreshed: nat)

  // ---------------------------------------------------------------- the statements

  /** `issuer_url`, `jwks_url` as far as the PATCH names them; `Some(None)` clears the explicit JWKS URL. */
  datatype Changes = Changes(issuerUrl: Option<Url>, jwksUrl: Option<Option<Url>>)

  function Patched(a: Anchor, c: Changes): Anchor {
    var urlChanged :=
      (c.issuerUrl.Some? && a.issuerUrl != c.issuerUrl.value) || (c.jwksUrl.Some? && a.jwksUrl != c.jwksUrl.value);
    var a1 := if c.issuerUrl.Some? then a.(issuerUrl := c.issuerUrl.value) else a;
    var a2 := if c.jwksUrl.Some? then a1.(jwksUrl := c.jwksUrl.value) else a1;
    if urlChanged then a2.(cache := None, cachedAt := None) else a2
  }

  /** Another anchor of the namespace already uses the issuer. */
  predicate Taken(t: Table, id: AnchorId, namespace: string, issuerUrl: Url) {
    exists other :: other in t && other != id && t[other].namespace == namespace && t[other].issuerUrl == issuerUrl
  }

  /** A missing anchor is a 404, a unique violation a 409; neither writes. */
  function Patch(t: Table, id: AnchorId, c: Changes): Table {
    if id !in t || Taken(t, id, t[id].namespace, Patched(t[id], c).issuerUrl) then t
    else t[id := Patched(t[id], c)]
  }

  function Create(t: Table, id: AnchorId, namespace: string, issuerUrl: Url, jwksUrl: Option<Url>): Table {
    if id in t || Taken(t, id, namespace, issuerUrl) then t
    else t[id := Anchor(namespace, issuerUrl, jwksUrl, None, None)]
  }

  /** The conditional write: only onto an anchor that still has the snapshot's URLs. */
  predicate Hits(t: Table, s: Snapshot) {
    s.id in t && t[s.id].issuerUrl == s.issuerUrl && t[s.id].jwksUrl == s.jwksUrl
  }

  function Store(t: Table, s: Snapshot, k: Keyset, now: int): Table {
    if Hits(t, s) then t[s.id := t[s.id].(cache := Some(k), cachedAt := Some(now))] else t
  }

  predicate Stale(a: Anchor, threshold: int) { a.cachedAt.None? || a.cachedAt.value < threshold }

  // ---------------------------------------------------------------- interleaved runs

  datatype Sys = Sys(table: Table, passes: map<nat, Pass>)

  datatype Step =
    | Created(id: AnchorId, namespace: string, issuerUrl: Url, jwksUrl: Option<Url>)
    | PatchSent(id: AnchorId, changes: Changes)
    | Deleted(id: AnchorId)
    | Select(w: nat, ids: seq<AnchorId>, threshold: int)
    | Fetch(w: nat, keys: Option<string>)
    | Write(w: nat, now: int)

  function Snapshots(t: Table, ids: seq<AnchorId>, threshold: int): seq<Snapshot> {
    if ids == [] then []
    else
      (if ids[0] in t && Stale(t[ids[0]], threshold)
       then [Snapshot(ids[0], t[ids[0]].issuerUrl, t[ids[0]].jwksUrl)] else [])
      + Snapshots(t, ids[1..], threshold)
  }

  function Do(s: Sys, step: Step): Sys {
    match step
    case Created(id, namespace, issuerUrl, jwksUrl) => s.(table := Create(s.table, id, namespace, issuerUrl, jwksUrl))
    case PatchSent(id, c) => s.(table := Patch(s.table, id, c))
    case Deleted(id) => s.(table := s.table - {id})
    case Select(w, ids, threshold) =>
      if w in s.passes then s else s.(passes := s.passes[w := Pass(Snapshots(s.table, ids, threshold), None, 0)])
    case Fetch(w, keys) =>
      if w !in s.passes || s.passes[w].todo == [] || s.passes[w].fetched.Some? then s
      else
        var p := s.passes[w];
        var next := match keys
          case Some(k) => p.(fetched := Some(Keyset(p.todo[0].issuerUrl, p.todo[0].jwksUrl, k)))
          case None => p.(todo := p.todo[1..]);
        s.(passes := s.passes[w := next])
    case Write(w, now) =>
      if w !in s.passes || s.passes[w].todo == [] || s.passes[w].fetched.None? then s
      else
        var p := s.passes[w];
        var hit := if Hits(s.table, p.todo[0]) then 1 else 0;
        Sys(Store(s.table, p.todo[0], p.fetched.value, now),
            s.passes[w := Pass(p.todo[1..], None, p.refreshed + hit)])
  }

  function Run(s: Sys, steps: seq<Step>): Sys
    decreases |steps|
  {
    if steps == [] then s else Run(Do(s, steps[0]), steps[1..])
  }

  /** A cache was fetched from the anchor's current URLs and is dated; no issuer twice in a namespace. */
  ghost predicate Coherent(t: Table) {
    && (forall id | id in t ::
          && (t[id].cache.Some? <==> t[id].cachedAt.Some?)
          && (t[id].cache.Some? ==>
                t[id].cache.value.issuerUrl == t[id].issuerUrl && t[id].cache.value.jwksUrl == t[id].jwksUrl))
    && (forall id | id in t :: !Taken(t, id, t[id].namespace, t[id].issuerUrl))
  }

  /** A key set in hand carries the URLs of the snapshot it was fetched for. */
  ghost predicate Tagged(passes: map<nat, Pass>) {
    forall w | w in passes && passes[w].fetched.Some? ::
      && passes[w].todo != []
      && passes[w].fetched.value.issuerUrl == passes[w].todo[0].issuerUrl
      && passes[w].fetched.value.jwksUrl == passes[w].todo[0].jwksUrl
  }

  lemma PatchKeepsCoherent(t: Table, id: AnchorId, c: Changes)
    requires Coherent(t)
    ensures Coherent(Patch(t, id, c))
  {
    if id in t && !Taken(t, id, t[id].namespace, Patched(t[id], c).issuerUrl) {
      StillUnique(t, id, Patched(t[id], c));
    }
  }

  /** Putting an anchor whose issuer is free keeps every issuer unique in its namespace. */
  lemma StillUnique(t: Table, id: AnchorId, a: Anchor)
    requires forall x | x in t :: !Taken(t, x, t[x].namespace, t[x].issuerUrl)
    requires !Taken(t, id, a.namespace, a.issuerUrl)
    ensures var t2 := t[id := a]; forall x | x in t2 :: !Taken(t2, x, t2[x].namespace, t2[x].issuerUrl)
  {
    forall x | x in t ensures !Taken(t, x, t[x].namespace, t[x].issuerUrl) {
    }
  }

  lemma StoreKeepsCoherent(t: Table, s: Snapshot, k: Keyset, now: int)
    requires Coherent(t) && k.issuerUrl == s.issuerUrl && k.jwksUrl == s.jwksUrl
    ensures Coherent(Store(t, s, k, now))
  {
    if Hits(t, s) {
      assert !Taken(t, s.id, t[s.id].namespace, t[s.id].issuerUrl);
      StillUnique(t, s.id, t[s.id].(cache := Some(k), cachedAt := Some(now)));
    }
  }

  lemma StepKeepsCoherent(s: Sys, step: Step)
    requires Coherent(s.table) && Tagged(s.passes)
    ensures Coherent(Do(s, step).table) && Tagged(Do(s, step).passes)
  {
    match step
    case Created(id, namespace, issuerUrl, jwksUrl) =>
      if id !in s.table && !Taken(s.table, id, namespace, issuerUrl) {
        StillUnique(s.table, id, Anchor(namespace, issuerUrl, jwksUrl, None, None));
      }
    case PatchSent(id, c) => PatchKeepsCoherent(s.table, id, c);
    case Deleted(id) =>
      forall x | x in s.table - {id} ensures !Taken(s.table - {id}, x, s.table[x].namespace, s.table[x].issuerUrl) {
        assert !Taken(s.table, x, s.table[x].namespace, s.table[x].issuerUrl);
      }
    case Write(w, now) =>
      if w in s.passes && s.passes[w].fetched.Some? {
        StoreKeepsCoherent(s.table, s.passes[w].todo[0], s.passes[w].fetched.value, now);
      }
    case _ =>
  }

  /** Coherence of the cache, over every interleaving of passes, PATCHes, creations and deletions. */
  lemma {:induction false} CacheIsCoherent(s: Sys, steps: seq<Step>)
    requires Coherent(s.table) && Tagged(s.passes)
    ensures Coherent(Run(s, steps).table) && Tagged(Run(s, steps).passes)
    decreases |steps|
  {
    if steps != [] {
      StepKeepsCoherent(s, steps[0]);
      CacheIsCoherent(Do(s, steps[0]), steps[1..]);
    }
  }

  /** The issuer that a PATCH asks for. */
  function Asked(a: Anchor, c: Changes): Url { if c.issuerUrl.Some? then c.issuerUrl.value else a.issuerUrl }

  /** Another anchor of the namespace has the issuer. */
  ghost predicate HasIssuer(t: Table, id: AnchorId, namespace: string, issuerUrl: Url) {
    exists other | other in t :: other != id && t[other].namespace == namespace && t[other].issuerUrl == issuerUrl
  }

  /**
   * A PATCH writes unless the anchor is missing or another one of its
   * namespace has the issuer asked for. It keeps the cache if and only if it
   * leaves both URLs as they were; otherwise the anchor is stale at once.
   */
  lemma PatchKeepsCacheIff(t: Table, id: AnchorId, c: Changes)
    requires Coherent(t)
    ensures var after := Patch(t, id, c);
            if id !in t || HasIssuer(t, id, t[id].namespace, Asked(t[id], c)) then after == t
            else
              && after.Keys == t.Keys && (forall x | x in t && x != id :: after[x] == t[x])
              && var a, b := t[id], after[id];
                 && b.namespace == a.namespace && b.issuerUrl == Asked(a, c)
                 && b.jwksUrl == (if c.jwksUrl.Some? then c.jwksUrl.value else a.jwksUrl)
                 && (if a.issuerUrl == b.issuerUrl && a.jwksUrl == b.jwksUrl
                     then b.cache == a.cache && b.cachedAt == a.cachedAt
                     else b.cache.None? && b.cachedAt.None?)
  {
    PatchKeepsCoherent(t, id, c);
  }

  /** A creation writes, without a cache, unless the id or the issuer is taken. */
  lemma CreateIff(t: Table, id: AnchorId, namespace: string, issuerUrl: Url, jwksUrl: Option<Url>)
    ensures Create(t, id, namespace, issuerUrl, jwksUrl) ==
            if id in t || HasIssuer(t, id, namespace, issuerUrl) then t
            else t[id := Anchor(namespace, issuerUrl, jwksUrl, None, None)]
  {
  }

  /** A pass selects exactly the anchors that have no cache date or one before the threshold, with their URLs. */
  lemma {:induction false} SelectsTheStale(t: Table, ids: seq<AnchorId>, threshold: int)
    ensures var selected := Snapshots(t, ids, threshold);
            && (forall s | s in selected ::
                  && s.id in ids && s.id in t && s.issuerUrl == t[s.id].issuerUrl && s.jwksUrl == t[s.id].jwksUrl
                  && (t[s.id].cachedAt.None? || t[s.id].cachedAt.value < threshold))
            && (forall id | id in ids && id in t && (t[id].cachedAt.None? || t[id].cachedAt.value < threshold) ::
                  Snapshot(id, t[id].issuerUrl, t[id].jwksUrl) in selected)
  {
    if ids != [] {
      SelectsTheStale(t, ids[1..], threshold);
      var rest := Snapshots(t, ids[1..], threshold);
      assert [] + rest == rest;
    }
  }

  /**
   * One round of a pass on the interleaved table. A failed fetch skips the
   * anchor; a key set is written, dated, onto the anchor it was fetched for if
   * that still has the URLs, and onto nothing otherwise.
   */
  lemma FetchThenWrite(s: Sys, w: nat, keys: Option<string>, now: int)
    requires w in s.passes && s.passes[w].todo != [] && s.passes[w].fetched.None?
    ensures var p := s.passes[w];
            var Snapshot(id, issuerUrl, jwksUrl) := p.todo[0];
            var fetched := Do(s, Fetch(w, keys));
            && fetched.table == s.table
            && if keys.None? then fetched.passes == s.passes[w := Pass(p.todo[1..], None, p.refreshed)]
               else
                 var t := Do(fetched, Write(w, now));
                 if id in s.table && s.table[id].issuerUrl == issuerUrl && s.table[id].jwksUrl == jwksUrl then
                   && t.passes == s.passes[w := Pass(p.todo[1..], None, p.refreshed + 1)]
                   && t.table == s.table[id := Anchor(s.table[id].namespace, issuerUrl, jwksUrl,
                                                      Some(Keyset(issuerUrl, jwksUrl, keys.value)), Some(now))]
                 else t.table == s.table && t.passes == s.passes[w := Pass(p.todo[1..], None, p.refreshed)]
  {
    if keys.Some? {
      var p := s.passes[w];
      var fetched := Pass(p.todo, Some(Keyset(p.todo[0].issuerUrl, p.todo[0].jwksUrl, keys.value)), p.refreshed);
      assert Do(s, Fetch(w, keys)) == Sys(s.table, s.passes[w := fetched]);
      var after := Pass(p.todo[1..], None, p.refreshed + if Hits(s.table, p.todo[0]) then 1 else 0);
      assert s.passes[w := fetched][w := after] == s.passes[w := after];
    }
  }

  /** The guard is exact: writing a fetched key set onto an anchor keeps the table coherent iff the URLs still match. */
  lemma GuardIsExact(t: Table, s: Snapshot, k: Keyset, now: int)
    requires Coherent(t) && s.id in t && k.issuerUrl == s.issuerUrl && k.jwksUrl == s.jwksUrl
    ensures Coherent(t[s.id := t[s.id].(cache := Some(k), cachedAt := Some(now))]) <==> Hits(t, s)
  {
    if Hits(t, s) {
      StoreKeepsCoherent(t, s, k, now);
    } else {
      var t2 := t[s.id := t[s.id].(cache := Some(k), cachedAt := Some(now))];
      assert t2[s.id].cache == Some(k);
    }
  }

  // ---------------------------------------------------------------- one pass, undisturbed

  class Refresher {
    var anchors: Table
    var running: bool

    constructor ()
      ensures anchors == map[] && !running
    {
      anchors, running := map[], false;
    }

    /**
     * Fetches for a selected row, then writes on condition that the anchor
     * still has the URLs fetched from; it may have been patched or deleted.
     */
    method RefreshAnchor(s: Snapshot, now: int, fetch: Fetch) returns (hit: bool)
      requires Coherent(anchors)
      modifies this`anchors
      ensures Coherent(anchors)
      ensures var keys := fetch(s.issuerUrl, s.jwksUrl);
              && hit == (keys.Some? && Hits(old(anchors), s))
              && anchors == (if keys.Some? then Store(old(anchors), s, Keyset(s.issuerUrl, s.jwksUrl, keys.value), now)
                             else old(anchors))
      ensures var t, keys := old(anchors), fetch(s.issuerUrl, s.jwksUrl);
              && (hit <==>
                    keys.Some? && s.id in t && t[s.id].issuerUrl == s.issuerUrl && t[s.id].jwksUrl == s.jwksUrl)
              && anchors == if !hit then t
                            else t[s.id := Anchor(t[s.id].namespace, s.issuerUrl, s.jwksUrl,
                                                  Some(Keyset(s.issuerUrl, s.jwksUrl, keys.value)), Some(now))]
    {
      var keys := fetch(s.issuerUrl, s.jwksUrl);
      if keys.None? {
        return false;
      }
      var keyset := Keyset(s.issuerUrl, s.jwksUrl, keys.value);
      StoreKeepsCoherent(anchors, s, keyset, now);
      hit := s.id in anchors && anchors[s.id].issuerUrl == s.issuerUrl && anchors[s.id].jwksUrl == s.jwksUrl;
      if hit {
        anchors := anchors[s.id := anchors[s.id].(cache := Some(keyset), cachedAt := Some(now))];
      }
    }

    /**
     * `refreshStaleJwks`, undisturbed. Every anchor stale at the start whose
     * key set could be fetched is refreshed, the others are as before; a pass
     * already running makes the call a no-op.
     */
    method RefreshStaleJwks(threshold: int, now: int, fetch: Fetch) returns (refreshed: nat)
      requires Coherent(anchors)
      modifies this
      ensures Coherent(anchors) && running == old(running)
      ensures old(running) ==> anchors == old(anchors) && refreshed == 0
      ensures !old(running) ==>
                && anchors.Keys == old(anchors).Keys && refreshed == |IsDue(old(anchors), threshold, fetch)|
                && forall id | id in anchors ::
                     var a := old(anchors)[id];
                     anchors[id] ==
                     if id in IsDue(old(anchors), threshold, fetch)
                     then Anchor(a.namespace, a.issuerUrl, a.jwksUrl,
                                 Some(Keyset(a.issuerUrl, a.jwksUrl, fetch(a.issuerUrl, a.jwksUrl).value)), Some(now))
                     else a
    {
      if running {
        return 0;
      }
      running := true;
      DueWhenUndisturbed(anchors, threshold, fetch);
      refreshed := RefreshRows(StaleRows(anchors, threshold), now, fetch);
      running := false;
    }

    /**
     * The loop over the rows a pass selected, on a table that may have moved
     * on since: exactly the rows that still have their URLs and whose key set
     * could be fetched are refreshed.
     */
    method RefreshRows(rows: Table, now: int, fetch: Fetch) returns (refreshed: nat)
      requires Coherent(anchors)
      modifies this`anchors
      ensures Coherent(anchors)
      ensures anchors == Refreshed(old(anchors), Due(old(anchors), rows, fetch), now, fetch)
      ensures refreshed == |Due(old(anchors), rows, fetch)|
    {
      hide *;
      refreshed := 0;
      ghost var before, due := anchors, Due(anchors, rows, fetch);
      RefreshNone(before, rows, now, fetch);
      var todo := rows.Keys;
      ghost var done: set<AnchorId> := {};
      while todo != {}
        invariant Coherent(anchors) && done !! todo && done + todo == rows.Keys
        invariant anchors == Refreshed(before, due * done, now, fetch)
        invariant refreshed == |due * done|
        decreases |todo|
      {
        var id :| id in todo;
        RefreshOne(before, rows, done, id, now, fetch);
        var hit := RefreshAnchor(Snapshot(id, rows[id].issuerUrl, rows[id].jwksUrl), now, fetch);
        refreshed := refreshed + if hit then 1 else 0;
        todo := todo - {id};
        done := done + {id};
      }
      assert due * done == due;
    }
  }

  /** The outcome of discovery and download for a pair of URLs. */
  type Fetch = (Url, Option<Url>) -> Option<string>

  /** The select of a pass. */
  function StaleRows(t: Table, threshold: int): Table {
    map id | id in t && Stale(t[id], threshold) :: t[id]
  }

  /** The selected rows a pass refreshes. */
  function Due(t: Table, rows: Table, fetch: Fetch): set<AnchorId> {
    set id | id in rows && Hits(t, Snapshot(id, rows[id].issuerUrl, rows[id].jwksUrl))
             && fetch(rows[id].issuerUrl, rows[id].jwksUrl).Some?
  }

  /** The anchors without a cache date, or dated before the threshold, whose key set can be fetched. */
  function IsDue(t: Table, threshold: int, fetch: Fetch): set<AnchorId> {
    set id | id in t && (t[id].cachedAt.None? || t[id].cachedAt.value < threshold)
             && fetch(t[id].issuerUrl, t[id].jwksUrl).Some?
  }

  function Refreshed(t: Table, ids: set<AnchorId>, now: int, fetch: Fetch): Table {
    map id | id in t ::
      var a := t[id];
      var keys := fetch(a.issuerUrl, a.jwksUrl);
      if id in ids && keys.Some?
      then a.(cache := Some(Keyset(a.issuerUrl, a.jwksUrl, keys.value)), cachedAt := Some(now))
      else a
  }

  lemma RefreshNone(t: Table, rows: Table, now: int, fetch: Fetch)
    ensures Refreshed(t, {}, now, fetch) == t && Due(t, rows, fetch) * {} == {} && Due(t, rows, fetch) <= rows.Keys
  {
  }

  lemma RefreshOne(t: Table, rows: Table, done: set<AnchorId>, id: AnchorId, now: int, fetch: Fetch)
    requires id in rows && id !in done
    ensures var due := Due(t, rows, fetch);
            var before := Refreshed(t, due * done, now, fetch);
            var keys := fetch(rows[id].issuerUrl, rows[id].jwksUrl);
            var s := Snapshot(id, rows[id].issuerUrl, rows[id].jwksUrl);
            && Refreshed(t, due * (done + {id}), now, fetch) ==
               (if keys.Some? then Store(before, s, Keyset(s.issuerUrl, s.jwksUrl, keys.value), now) else before)
            && |due * (done + {id})| == |due * done| + if keys.Some? && Hits(before, s) then 1 else 0
  {
    hide Refreshed, Due;
    var due := Due(t, rows, fetch);
    Intersects(due, done, id);
    DueIsHit(t, rows, due * done, id, now, fetch);
    RefreshMore(t, due * done, id, now, fetch);
  }

  lemma Intersects(due: set<AnchorId>, done: set<AnchorId>, id: AnchorId)
    requires id !in done
    ensures due * (done + {id}) == due * done + if id in due then {id} else {}
    ensures |due * (done + {id})| == |due * done| + if id in due then 1 else 0
  {
    assert due * (done + {id}) == due * done + if id in due then {id} else {};
  }

  /** Refreshing other anchors does not change whether a row is due. */
  lemma DueIsHit(t: Table, rows: Table, ids: set<AnchorId>, id: AnchorId, now: int, fetch: Fetch)
    requires id in rows
    ensures var s := Snapshot(id, rows[id].issuerUrl, rows[id].jwksUrl);
            && Hits(Refreshed(t, ids, now, fetch), s) == Hits(t, s)
            && (id in Due(t, rows, fetch) <==> Hits(t, s) && fetch(s.issuerUrl, s.jwksUrl).Some?)
  {
  }

  lemma RefreshMore(t: Table, ids: set<AnchorId>, id: AnchorId, now: int, fetch: Fetch)
    requires id !in ids
    ensures var before := Refreshed(t, ids, now, fetch);
            if id !in t || fetch(t[id].issuerUrl, t[id].jwksUrl).None?
            then Refreshed(t, ids + {id}, now, fetch) == before
            else
              var a := t[id];
              var keyset := Keyset(a.issuerUrl, a.jwksUrl, fetch(a.issuerUrl, a.jwksUrl).value);
              && id in before && before[id] == a
              && Refreshed(t, ids + {id}, now, fetch) == before[id := a.(cache := Some(keyset), cachedAt := Some(now))]
  {
  }

  /** Nothing has moved on: what is due is what is stale and fetchable. */
  lemma DueWhenUndisturbed(t: Table, threshold: int, fetch: Fetch)
    ensures Due(t, StaleRows(t, threshold), fetch) == IsDue(t, threshold, fetch)
  {
  }
}
