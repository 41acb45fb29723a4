/**
 * The handshake-session projection, and what re-sending a log does to it.
 * Producers post a prefix of a run's log and later the whole log; projections
 * run for every event, duplicates included. A list of events here is a batch
 * after deduplication, which keeps first occurrences in order and treats the
 * common part of both requests alike.
 */
module Sessions {
  import opened Text

  type Sid = string
  type Instant = int

  datatype Kind = Started | Complete | Failed | Other

  /**
   * `ts` is the producer's timestamp, if it is usable, and `at` the time at
   * which the request that carries the event normalised it. An absent or empty
   * session id is `None`.
   */
  datatype Event = Event(
    kind: Kind, sessionId: Option<Sid>, ts: Option<Instant>, at: Instant,
    aidA: Option<string>, aidB: Option<string>, runId: Option<string>, boundary: Option<string>,
    grants: Option<seq<string>>, error: Option<string>)
  {
    /** `normalizeTimestamp` */
    function Time(): Instant { if ts.Some? then ts.value else at }
  }

  datatype Status = InProgress | Completed | HasFailed

  /** A session row without its update stamp. */
  datatype Session = Session(
    aidA: Option<string>, aidB: Option<string>, status: Status, runId: Option<string>, boundary: Option<string>,
    startedAt: Instant, completedAt: Option<Instant>, grants: seq<string>, error: Option<string>)

  type Table = map<Sid, Session>

  function NewSession(e: Event): Session {
    Session(e.aidA, e.aidB, InProgress, e.runId, e.boundary, e.Time(), None, [], None)
  }

  /** What an event about a session does to its row, if there is one. */
  function OnRow(row: Option<Session>, e: Event): Option<Session> {
    match (row, e.kind)
    case (None, Started) => Some(NewSession(e))
    case (Some(s), Complete) =>
      Some(s.(status := Completed, completedAt := Some(e.Time()),
              grants := if e.grants.Some? then e.grants.value else []))
    case (Some(s), Failed) => Some(s.(status := HasFailed, error := e.error))
    case _ => row
  }

  function Row(table: Table, sid: Sid): Option<Session> {
    if sid in table then Some(table[sid]) else None
  }

  function OnEvent(table: Table, e: Event): Table {
    match e.sessionId
    case None => table
    case Some(sid) =>
      match OnRow(Row(table, sid), e)
      case Some(s) => table[sid := s]
      case None => table
  }

  /** Projecting a batch in order. */
  function Ingest(table: Table, events: seq<Event>): Table {
    if events == [] then table
    else OnEvent(Ingest(table, events[..|events| - 1]), events[|events| - 1])
  }

  class SessionMonitor {
    var sessions: Table

    constructor ()
      ensures sessions == map[]
    {
      sessions := map[];
    }

    /** An insert that ignores conflicts, or an update of whatever row is there. */
    method Observe(e: Event)
      modifies this
      ensures sessions == OnEvent(old(sessions), e)
    {
      if e.sessionId.None? {
        return;
      }
      var sid := e.sessionId.value;
      if e.kind.Started? {
        if sid !in sessions {
          sessions := sessions[sid := NewSession(e)];
        }
      } else if e.kind.Complete? {
        if sid in sessions {
          var granted := if e.grants.Some? then e.grants.value else [];
          var before := sessions[sid];
          sessions := sessions[sid := before.(status := Completed, completedAt := Some(e.Time()), grants := granted)];
        }
      } else if e.kind.Failed? {
        if sid in sessions {
          sessions := sessions[sid := sessions[sid].(status := HasFailed, error := e.error)];
        }
      }
    }

    /** A batch, event by event. A statement that fails is logged and skipped. */
    method ObserveAll(events: seq<Event>, ok: seq<bool>)
      requires |ok| == |events|
      modifies this
      ensures sessions == Ingest(old(sessions), Surviving(events, ok))
    {
      var i := 0;
      while i < |events|
        invariant 0 <= i <= |events|
        invariant sessions == Ingest(old(sessions), Surviving(events[..i], ok[..i]))
      {
        assert events[..i + 1][..i] == events[..i] && ok[..i + 1][..i] == ok[..i];
        ghost var before := Surviving(events[..i], ok[..i]);
        assert Surviving(events[..i + 1], ok[..i + 1]) == before + if ok[i] then [events[i]] else [];
        assert (before + [events[i]])[..|before|] == before && before + [] == before;
        if ok[i] {
          Observe(events[i]);
        }
        i := i + 1;
      }
      assert events[..i] == events && ok[..i] == ok;
    }
  }

  /** The events whose statement went through. */
  function Surviving(events: seq<Event>, ok: seq<bool>): (kept: seq<Event>)
    requires |ok| == |events|
    ensures forall e | e in kept :: e in events
    ensures (forall i | 0 <= i < |ok| :: ok[i]) ==> kept == events
  {
    if events == [] then []
    else
      var n := |events| - 1;
      Surviving(events[..n], ok[..n]) + if ok[n] then [events[n]] else []
  }

  // ---------------------------------------------------------------- one session at a time

  /** The handshake events of one session. */
  function About(sid: Sid, events: seq<Event>): seq<Event> {
    if events == [] then []
    else
      var e := events[|events| - 1];
      About(sid, events[..|events| - 1]) + if e.sessionId == Some(sid) && !e.kind.Other? then [e] else []
  }

  function Fold(row: Option<Session>, es: seq<Event>): Option<Session> {
    if es == [] then row else OnRow(Fold(row, es[..|es| - 1]), es[|es| - 1])
  }

  lemma FoldPush(row: Option<Session>, es: seq<Event>, e: Event)
    ensures Fold(row, es + [e]) == OnRow(Fold(row, es), e)
  {
    assert (es + [e])[..|es|] == es;
  }

  /** One event moves the row of its own session, and no other. */
  lemma RowAfter(table: Table, e: Event, sid: Sid)
    ensures Row(OnEvent(table, e), sid) ==
            if e.sessionId == Some(sid) && !e.kind.Other? then OnRow(Row(table, sid), e) else Row(table, sid)
  {
  }

  /** A session's row depends on its own events only. */
  lemma {:induction false} RowIsFold(table: Table, events: seq<Event>, sid: Sid)
    ensures Row(Ingest(table, events), sid) == Fold(Row(table, sid), About(sid, events))
  {
    if events != [] {
      var before, e := events[..|events| - 1], events[|events| - 1];
      assert Ingest(table, events) == OnEvent(Ingest(table, before), e);
      assert About(sid, events) == About(sid, before) + if e.sessionId == Some(sid) && !e.kind.Other? then [e] else [];
      hide *;
      RowIsFold(table, before, sid);
      RowAfter(Ingest(table, before), e, sid);
      FoldPush(Row(table, sid), About(sid, before), e);
      assert About(sid, before) + [] == About(sid, before);
    }
  }

  lemma {:induction false} AboutAppend(sid: Sid, p: seq<Event>, q: seq<Event>)
    ensures About(sid, p + q) == About(sid, p) + About(sid, q)
  {
    if q == [] {
      assert p + q == p;
    } else {
      AboutAppend(sid, p, q[..|q| - 1]);
      assert (p + q)[..|p + q| - 1] == p + q[..|q| - 1];
    }
  }

  // ---------------------------------------------------------------- last writer wins

  function Last(kinds: set<Kind>, es: seq<Event>): Option<Event> {
    if es == [] then None
    else if es[|es| - 1].kind in kinds then Some(es[|es| - 1])
    else Last(kinds, es[..|es| - 1])
  }

  lemma {:induction false} LastAppend(kinds: set<Kind>, p: seq<Event>, q: seq<Event>)
    ensures Last(kinds, p + q) == if Last(kinds, q).Some? then Last(kinds, q) else Last(kinds, p)
  {
    if q == [] {
      assert p + q == p;
    } else {
      LastAppend(kinds, p, q[..|q| - 1]);
      assert (p + q)[..|p + q| - 1] == p + q[..|q| - 1];
    }
  }

  /** A row after updates: each column holds what its last writer wrote. */
  function Settle(s: Session, complete: Option<Event>, failed: Option<Event>, either: Option<Event>): Session {
    var s1 := if complete.None? then s
              else s.(completedAt := Some(complete.value.Time()),
                      grants := if complete.value.grants.Some? then complete.value.grants.value else []);
    var s2 := if failed.None? then s1 else s1.(error := failed.value.error);
    if either.None? then s2 else s2.(status := if either.value.kind.Complete? then Completed else HasFailed)
  }

  function SettleAll(s: Session, es: seq<Event>): Session {
    Settle(s, Last({Complete}, es), Last({Failed}, es), Last({Complete, Failed}, es))
  }

  lemma {:induction false} FoldIsSettle(s: Session, es: seq<Event>)
    ensures Fold(Some(s), es) == Some(SettleAll(s, es))
  {
    if es != [] {
      FoldIsSettle(s, es[..|es| - 1]);
    }
  }

  lemma {:induction false} FoldAppend(row: Option<Session>, p: seq<Event>, q: seq<Event>)
    ensures Fold(row, p + q) == Fold(Fold(row, p), q)
  {
    if q == [] {
      assert p + q == p;
    } else {
      FoldAppend(row, p, q[..|q| - 1]);
      assert (p + q)[..|p + q| - 1] == p + q[..|q| - 1];
    }
  }

  /** Index of the first `handshake.started`, or the length when there is none. */
  function FirstStart(es: seq<Event>): (i: nat)
    ensures i <= |es| && forall j | 0 <= j < i :: !es[j].kind.Started?
    ensures i < |es| ==> es[i].kind.Started?
  {
    if es == [] then 0
    else
      var i := FirstStart(es[..|es| - 1]);
      if i < |es| - 1 || es[|es| - 1].kind.Started? then i else |es|
  }

  lemma {:induction false} NothingBeforeStart(es: seq<Event>)
    requires forall j | 0 <= j < |es| :: !es[j].kind.Started?
    ensures Fold(None, es) == None
  {
    if es != [] {
      NothingBeforeStart(es[..|es| - 1]);
    }
  }

  /** Everything reported ahead of a session's start is overwritten by something reported after it. */
  predicate Covered(early: seq<Event>, late: seq<Event>) {
    && (Last({Complete}, early).Some? ==> Last({Complete}, late).Some?)
    && (Last({Failed}, early).Some? ==>
          || Last({Failed}, late).Some?
          || (Last({Complete}, late).Some? && Last({Failed}, early).value.error.None?))
  }

  /** The log, posted again, opens with what `p` posted; only the request times differ. */
  predicate Resends(p: seq<Event>, log: seq<Event>) {
    |p| <= |log| && forall k | 0 <= k < |p| :: p[k] == log[k].(at := p[k].at)
  }

  /**
   * When a session that is not in the table may be re-sent: the start that made
   * its row carries a timestamp (or both requests stamped it alike), and what
   * came ahead of it, ignored the first time, is covered.
   */
  predicate Resendable(p: seq<Event>, log: seq<Event>) {
    var i := FirstStart(p);
    i < |p| && i < |log| ==> (p[i].ts.Some? || p[i].at == log[i].at) && Covered(log[..i], log[i + 1..])
  }

  /**
   * When the whole log repairs a session of which only `kept` went through:
   * the first start that did makes the row that the log's first start makes,
   * start time included.
   */
  predicate Repairable(kept: seq<Event>, log: seq<Event>) {
    var i, j := FirstStart(kept), FirstStart(log);
    i < |kept| ==> j < |log| && NewSession(kept[i]) == NewSession(log[j]) && Covered(log[..j], log[j + 1..])
  }

  lemma {:induction false} LastEither(es: seq<Event>)
    ensures Last({Complete, Failed}, es).Some? <==> Last({Complete}, es).Some? || Last({Failed}, es).Some?
    ensures Last({Complete, Failed}, es).Some? ==>
              Last({Complete, Failed}, es) == Last({Complete}, es) || Last({Complete, Failed}, es) == Last({Failed}, es)
    ensures Last({Complete}, es).Some? ==> Last({Complete}, es).value.kind.Complete?
    ensures Last({Failed}, es).Some? ==> Last({Failed}, es).value.kind.Failed?
  {
    if es != [] {
      LastEither(es[..|es| - 1]);
    }
  }

  lemma {:induction false} LastIsSome(kinds: set<Kind>, es: seq<Event>)
    ensures Last(kinds, es).Some? <==> exists e :: e in es && e.kind in kinds
  {
    if es != [] {
      var n := |es| - 1;
      LastIsSome(kinds, es[..n]);
      assert forall e :: e in es <==> e in es[..n] || e == es[n];
    }
  }

  /** Every kind of event in `kept` occurs in `log`. */
  predicate KindsOccur(kept: seq<Event>, log: seq<Event>) {
    forall e | e in kept :: exists f :: f in log && f.kind == e.kind
  }

  lemma LastCarries(kinds: set<Kind>, kept: seq<Event>, log: seq<Event>)
    requires KindsOccur(kept, log)
    ensures Last(kinds, kept).Some? ==> Last(kinds, log).Some?
  {
    hide Last;
    LastIsSome(kinds, kept);
    LastIsSome(kinds, log);
  }

  /** Replaying a log over events of its own kinds is applying the log. */
  lemma SettleOver(s: Session, kept: seq<Event>, log: seq<Event>)
    requires KindsOccur(kept, log)
    ensures SettleAll(SettleAll(s, kept), log) == SettleAll(s, log)
  {
    hide Last;
    LastCarries({Complete}, kept, log);
    LastCarries({Failed}, kept, log);
    LastCarries({Complete, Failed}, kept, log);
    SettleTwice(s, Last({Complete}, kept), Last({Failed}, kept), Last({Complete, Failed}, kept),
                Last({Complete}, log), Last({Failed}, log), Last({Complete, Failed}, log));
  }

  lemma SettleTwice(
    s: Session, c: Option<Event>, f: Option<Event>, e: Option<Event>,
    c2: Option<Event>, f2: Option<Event>, e2: Option<Event>)
    requires (c.Some? ==> c2.Some?) && (f.Some? ==> f2.Some?) && (e.Some? ==> e2.Some?)
    ensures Settle(Settle(s, c, f, e), c2, f2, e2) == Settle(s, c2, f2, e2)
  {
  }

  /** Applying the whole log to a row born in it changes nothing exactly when the early reports are covered. */
  lemma SettleWithEarly(s: Session, early: seq<Event>, start: Event, late: seq<Event>)
    requires start.kind.Started? && s.completedAt.None? && s.error.None? && s.status.InProgress?
    ensures SettleAll(s, early + [start] + late) == SettleAll(s, late) <==> Covered(early, late)
  {
    forall kinds | kinds in {{Complete}, {Failed}, {Complete, Failed}}
      ensures Last(kinds, early + [start] + late) ==
              if Last(kinds, late).Some? then Last(kinds, late) else Last(kinds, early)
    {
      LastAppend(kinds, early + [start], late);
      LastAppend(kinds, early, [start]);
      assert [start][..0] == [];
    }
    LastEither(early);
    LastEither(late);
    hide Last;
  }

  /** Updates never touch the columns a session is born with. */
  lemma BornColumns(a: Event, b: Event, p: seq<Event>, q: seq<Event>)
    requires SettleAll(NewSession(a), p) == SettleAll(NewSession(b), q)
    ensures NewSession(a) == NewSession(b)
  {
    hide Last;
  }

  /** A session that is born inside a log. */
  lemma BornInLog(log: seq<Event>, j: nat)
    requires j == FirstStart(log) < |log|
    ensures Fold(None, log) == Some(SettleAll(NewSession(log[j]), log[j + 1..]))
  {
    hide *;
    var early, start, late := log[..j], log[j], log[j + 1..];
    var born := early + [start];
    assert log == born + late;
    NothingBeforeStart(early);
    FoldPush(None, early, start);
    StartMakes(start);
    FoldAppend(None, born, late);
    FoldIsSettle(NewSession(start), late);
  }

  lemma StartMakes(e: Event)
    requires e.kind.Started?
    ensures OnRow(None, e) == Some(NewSession(e))
  {
  }

  /** One session: applying a whole log after part of it against applying the log once. */
  lemma FoldRepairIff(row: Option<Session>, kept: seq<Event>, log: seq<Event>)
    requires KindsOccur(kept, log)
    ensures Fold(Fold(row, kept), log) == Fold(row, log) <==> row.Some? || Repairable(kept, log)
  {
    hide Fold, SettleAll, OnRow, NewSession, Last, Covered;
    match row
    case Some(s) =>
      FoldIsSettle(s, kept);
      FoldIsSettle(SettleAll(s, kept), log);
      FoldIsSettle(s, log);
      SettleOver(s, kept, log);
    case None =>
      var i, j := FirstStart(kept), FirstStart(log);
      if i < |kept| {
        StartOccurs(kept, log);
        assert KindsOccur(kept[i + 1..], log) by { assert forall e | e in kept[i + 1..] :: e in kept; }
        BornInLog(kept, i);
        BornInLog(log, j);
        NewIsBlank(log[j]);
        assert log == log[..j] + [log[j]] + log[j + 1..];
        SettleWithEarly(NewSession(log[j]), log[..j], log[j], log[j + 1..]);
        FoldIsSettle(SettleAll(NewSession(kept[i]), kept[i + 1..]), log);
        SettleOver(NewSession(kept[i]), kept[i + 1..], log);
        if SettleAll(NewSession(kept[i]), log) == SettleAll(NewSession(log[j]), log[j + 1..]) {
          BornColumns(kept[i], log[j], log, log[j + 1..]);
        }
      } else {
        NothingBeforeStart(kept);
      }
  }

  lemma StartOccurs(kept: seq<Event>, log: seq<Event>)
    requires KindsOccur(kept, log) && FirstStart(kept) < |kept|
    ensures FirstStart(log) < |log|
  {
    assert kept[FirstStart(kept)] in kept;
    var f :| f in log && f.kind.Started?;
    var m :| 0 <= m < |log| && log[m] == f;
  }

  lemma ResendsKinds(p: seq<Event>, log: seq<Event>)
    requires Resends(p, log)
    ensures KindsOccur(p, log)
  {
    forall e | e in p ensures exists f :: f in log && f.kind == e.kind {
      var k :| 0 <= k < |p| && p[k] == e;
      assert log[k] in log && log[k].kind == e.kind;
    }
  }

  /** Both posts have their first start in the same place, and it makes the same row if its time is the same. */
  lemma StartsAlike(p: seq<Event>, log: seq<Event>)
    requires Resends(p, log) && FirstStart(p) < |p|
    ensures var i := FirstStart(p);
            && FirstStart(log) == i
            && (NewSession(p[i]) == NewSession(log[i]) <==> p[i].ts.Some? || p[i].at == log[i].at)
  {
    var i := FirstStart(p);
    assert log[i].kind.Started? && forall k | 0 <= k < i :: log[k].kind == p[k].kind;
  }

  /** Posting a prefix that went through, and then the whole log. */
  lemma FoldTwiceIff(row: Option<Session>, p: seq<Event>, log: seq<Event>)
    requires Resends(p, log)
    ensures Fold(Fold(row, p), log) == Fold(row, log) <==> row.Some? || Resendable(p, log)
  {
    hide Fold, Covered, NewSession, FirstStart, Resends, KindsOccur;
    assert |p| <= |log| by { LengthsOf(p, log); }
    ResendsKinds(p, log);
    FoldRepairIff(row, p, log);
    if FirstStart(p) < |p| {
      StartsAlike(p, log);
    }
  }

  lemma LengthsOf(p: seq<Event>, log: seq<Event>)
    requires Resends(p, log)
    ensures |p| <= |log|
  {
  }

  lemma NewIsBlank(e: Event)
    ensures NewSession(e).completedAt.None? && NewSession(e).error.None? && NewSession(e).status.InProgress?
  {
  }

  lemma {:induction false} AboutAlike(sid: Sid, p: seq<Event>, r: seq<Event>)
    requires Resends(p, r) && |p| == |r|
    ensures Resends(About(sid, p), About(sid, r)) && |About(sid, p)| == |About(sid, r)|
  {
    if p != [] {
      var n := |p| - 1;
      AboutAlike(sid, p[..n], r[..n]);
      AboutPush(sid, p);
      AboutPush(sid, r);
      hide About;
    }
  }

  lemma AboutPush(sid: Sid, events: seq<Event>)
    requires events != []
    ensures var n := |events| - 1;
            var e := events[n];
            About(sid, events) ==
            if e.sessionId == Some(sid) && !e.kind.Other? then About(sid, events[..n]) + [e]
            else About(sid, events[..n])
  {
    assert About(sid, events[..|events| - 1]) + [] == About(sid, events[..|events| - 1]);
  }

  lemma AboutResends(sid: Sid, p: seq<Event>, log: seq<Event>)
    requires Resends(p, log)
    ensures Resends(About(sid, p), About(sid, log))
  {
    hide About;
    var again, more := log[..|p|], log[|p|..];
    AboutAlike(sid, p, again);
    AboutAppend(sid, again, more);
    assert log == again + more;
  }

  /**
   * Re-send safety of one session row, as a condition on what was reported of
   * it: posting a prefix and then the whole log, against posting the log once
   * at the time of the second request.
   */
  lemma ResendIff(table: Table, p: seq<Event>, log: seq<Event>, sid: Sid)
    requires Resends(p, log)
    ensures Row(Ingest(Ingest(table, p), log), sid) == Row(Ingest(table, log), sid) <==>
            sid in table || Resendable(About(sid, p), About(sid, log))
  {
    RowIsFold(table, p, sid);
    RowIsFold(Ingest(table, p), log, sid);
    RowIsFold(table, log, sid);
    AboutResends(sid, p, log);
    FoldTwiceIff(Row(table, sid), About(sid, p), About(sid, log));
    hide Ingest, About, Fold, Resendable;
  }

  /** The whole table, if and only if every session that was not there is re-sendable. */
  lemma ResendTableIff(table: Table, p: seq<Event>, log: seq<Event>)
    requires Resends(p, log)
    ensures Ingest(Ingest(table, p), log) == Ingest(table, log) <==>
            forall sid | sid !in table :: Resendable(About(sid, p), About(sid, log))
  {
    var twice, once := Ingest(Ingest(table, p), log), Ingest(table, log);
    forall sid
      ensures Row(twice, sid) == Row(once, sid) <==> sid in table || Resendable(About(sid, p), About(sid, log))
    {
      ResendIff(table, p, log, sid);
    }
    hide Ingest, About, Resendable;
    if forall sid :: Row(twice, sid) == Row(once, sid) {
      forall sid ensures sid in twice <==> sid in once { assert Row(twice, sid) == Row(once, sid); }
      forall sid | sid in once ensures twice[sid] == once[sid] { assert Row(twice, sid) == Row(once, sid); }
      assert twice == once;
    }
  }

  /** A start without a timestamp keeps the time of the first request; posting once at the second gives the second. */
  lemma UntimedStartMoves(start: Event, first: Instant, second: Instant, sid: Sid)
    requires start.kind.Started? && start.sessionId == Some(sid) && start.ts.None? && first != second
    ensures var p, log := [start.(at := first)], [start.(at := second)];
            && Resends(p, log)
            && Row(Ingest(Ingest(map[], p), log), sid).value.startedAt == first
            && Row(Ingest(map[], log), sid).value.startedAt == second
  {
    var a, b := start.(at := first), start.(at := second);
    assert [a][..0] == [] && [b][..0] == [];
    var table := map[sid := NewSession(a)];
    assert Ingest(map[], [a]) == OnEvent(Ingest(map[], []), a) == table;
    assert Ingest(table, [b]) == OnEvent(Ingest(table, []), b) == table;
    assert Ingest(map[], [b]) == OnEvent(Ingest(map[], []), b);
  }

  /** What survived of a session is of kinds that the re-sent log reports of it. */
  lemma AboutKinds(sid: Sid, kept: seq<Event>, p: seq<Event>, log: seq<Event>)
    requires Resends(p, log) && forall e | e in kept :: e in p
    ensures KindsOccur(About(sid, kept), About(sid, log))
  {
    AboutIs(sid, kept);
    AboutIs(sid, log);
    forall e | e in About(sid, kept) ensures exists f :: f in About(sid, log) && f.kind == e.kind {
      var k :| 0 <= k < |p| && p[k] == e;
      assert log[k] in log && log[k].kind == e.kind && log[k].sessionId == e.sessionId;
      assert log[k] in About(sid, log);
    }
  }

  lemma {:induction false} AboutIs(sid: Sid, events: seq<Event>)
    ensures forall e :: e in About(sid, events) <==> e in events && e.sessionId == Some(sid) && !e.kind.Other?
  {
    if events != [] {
      var n := |events| - 1;
      AboutIs(sid, events[..n]);
      assert forall e :: e in events <==> e in events[..n] || e == events[n];
    }
  }

  /**
   * Exactly when a re-send repairs a session some of whose statements failed
   * the first time, whichever they were.
   */
  lemma RepairIff(table: Table, p: seq<Event>, ok: seq<bool>, log: seq<Event>, sid: Sid)
    requires |ok| == |p| && Resends(p, log)
    ensures var kept := Surviving(p, ok);
            Row(Ingest(Ingest(table, kept), log), sid) == Row(Ingest(table, log), sid) <==>
            sid in table || Repairable(About(sid, kept), About(sid, log))
  {
    var kept := Surviving(p, ok);
    RowIsFold(table, kept, sid);
    RowIsFold(Ingest(table, kept), log, sid);
    RowIsFold(table, log, sid);
    AboutKinds(sid, kept, p, log);
    FoldRepairIff(Row(table, sid), About(sid, kept), About(sid, log));
    hide Ingest, About, Fold, Repairable;
  }

  /** Two starts, the insert of the first one lost: the second made the row, and no re-send corrects it. */
  lemma LostFirstStartStays(first: Event, second: Event, sid: Sid)
    requires first.kind.Started? && second.kind.Started? && first.sessionId == second.sessionId == Some(sid)
    requires NewSession(first) != NewSession(second)
    ensures var log := [first, second];
            var kept := Surviving(log, [false, true]);
            && Row(Ingest(map[], log), sid) == Some(NewSession(first))
            && Row(Ingest(Ingest(map[], kept), log), sid) == Some(NewSession(second))
  {
    var log := [first, second];
    assert log[..1] == [first] && [first][..0] == [] && [false, true][..1] == [false] && [false][..0] == [];
    assert Surviving(log, [false, true]) == Surviving([first], [false]) + [second] == [] + [] + [second] == [second];
    TwoEvents(map[], first, second);
    TwoEvents(Ingest(map[], [second]), first, second);
    assert [second][..0] == [];
    assert Ingest(map[], [second]) == OnEvent(Ingest(map[], []), second) == map[sid := NewSession(second)];
  }

  /** Logs in which every session opens with a `started` that carries a timestamp can be re-sent freely. */
  lemma StartedFirstIsSafe(p: seq<Event>, log: seq<Event>)
    requires Resends(p, log)
    requires forall sid :: About(sid, log) != [] ==> About(sid, log)[0].kind.Started? && About(sid, log)[0].ts.Some?
    ensures Ingest(Ingest(map[], p), log) == Ingest(map[], log)
  {
    forall sid ensures Resendable(About(sid, p), About(sid, log)) {
      AboutResends(sid, p, log);
      var i := FirstStart(About(sid, p));
      assert i < |About(sid, p)| ==> i == 0 && About(sid, log)[..i] == [];
    }
    ResendTableIff(map[], p, log);
    hide Ingest, About, Resendable;
  }

  /** A `complete` ahead of its `started` is ignored once and applied on the re-send. */
  lemma EarlyCompleteIsNotSafe(complete: Event, start: Event, sid: Sid)
    requires complete.kind.Complete? && start.kind.Started?
    requires complete.sessionId == start.sessionId == Some(sid)
    ensures var log := [complete, start];
            Row(Ingest(map[], log), sid) == Some(NewSession(start)) &&
            Row(Ingest(Ingest(map[], log), log), sid).value.status == Completed
  {
    TwoEvents(map[], complete, start);
    TwoEvents(Ingest(map[], [complete, start]), complete, start);
  }

  lemma TwoEvents(table: Table, a: Event, b: Event)
    ensures Ingest(table, [a, b]) == OnEvent(OnEvent(table, a), b)
  {
    assert [a, b][..1] == [a] && [a][..0] == [];
    assert Ingest(table, [a]) == OnEvent(Ingest(table, []), a);
  }
}
