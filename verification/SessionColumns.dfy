/** Where each column of a session's row comes from, said of places in the log. */
module SessionColumns {
  import opened Text
  import opened Sessions

  predicate Mentions(e: Event, sid: Sid, kinds: set<Kind>) { e.sessionId == Some(sid) && e.kind in kinds }

  /** Place `i` holds the session's first start. */
  predicate IsFirstStart(events: seq<Event>, i: nat, sid: Sid) {
    && i < |events| && Mentions(events[i], sid, {Started})
    && forall k: nat | k < i :: !Mentions(events[k], sid, {Started})
  }

  /** Place `j`, after `i`, holds the session's last event of these kinds. */
  predicate IsLast(events: seq<Event>, i: nat, j: nat, sid: Sid, kinds: set<Kind>) {
    && i < j < |events| && Mentions(events[j], sid, kinds)
    && forall k: nat | j < k < |events| :: !Mentions(events[k], sid, kinds)
  }

  predicate HasNone(events: seq<Event>, i: nat, sid: Sid, kinds: set<Kind>) {
    forall k: nat | i < k < |events| :: !Mentions(events[k], sid, kinds)
  }

  /** The producer's timestamp, or the time the request stamped. */
  function TimeOf(e: Event): Instant { if e.ts.None? then e.at else e.ts.value }

  predicate FromStart(s: Session, e: Event) {
    && s.aidA == e.aidA && s.aidB == e.aidB && s.runId == e.runId && s.boundary == e.boundary
    && s.startedAt == TimeOf(e)
  }

  predicate FromComplete(s: Session, e: Event) {
    && s.completedAt == Some(TimeOf(e))
    && s.grants == if e.grants.None? then [] else e.grants.value
  }

  ghost predicate CompletionIs(s: Session, events: seq<Event>, i: nat, sid: Sid) {
    && (HasNone(events, i, sid, {Complete}) ==> s.completedAt.None? && s.grants == [])
    && (forall j: nat | IsLast(events, i, j, sid, {Complete}) :: FromComplete(s, events[j]))
  }

  ghost predicate ErrorIs(s: Session, events: seq<Event>, i: nat, sid: Sid) {
    && (HasNone(events, i, sid, {Failed}) ==> s.error.None?)
    && (forall j: nat | IsLast(events, i, j, sid, {Failed}) :: s.error == events[j].error)
  }

  ghost predicate StatusIs(s: Session, events: seq<Event>, i: nat, sid: Sid) {
    && (HasNone(events, i, sid, {Complete, Failed}) ==> s.status.InProgress?)
    && (forall j: nat | IsLast(events, i, j, sid, {Complete, Failed}) ::
          s.status == if events[j].kind.Complete? then Completed else HasFailed)
  }

  /** Each column against the places of the log that write it. */
  ghost predicate Columns(s: Session, events: seq<Event>, i: nat, sid: Sid)
    requires i < |events|
  {
    && FromStart(s, events[i])
    && CompletionIs(s, events, i, sid) && ErrorIs(s, events, i, sid) && StatusIs(s, events, i, sid)
  }

  lemma IngestPush(table: Table, events: seq<Event>)
    requires events != []
    ensures Ingest(table, events) == OnEvent(Ingest(table, events[..|events| - 1]), events[|events| - 1])
  {
  }

  /** A session without a start has no row. */
  lemma {:induction false} NoStartNoRow(events: seq<Event>, sid: Sid)
    requires forall k: nat | k < |events| :: !Mentions(events[k], sid, {Started})
    ensures sid !in Ingest(map[], events)
  {
    if events != [] {
      NoStartNoRow(events[..|events| - 1], sid);
    }
  }

  lemma LastPush(events: seq<Event>, i: nat, sid: Sid, kinds: set<Kind>)
    requires i + 1 < |events|
    ensures var n := |events| - 1;
            var before := events[..n];
            && (HasNone(events, i, sid, kinds) <==> HasNone(before, i, sid, kinds) && !Mentions(events[n], sid, kinds))
            && (forall j: nat :: IsLast(events, i, j, sid, kinds) <==>
                  if Mentions(events[n], sid, kinds) then j == n else IsLast(before, i, j, sid, kinds))
            && (forall j: nat | IsLast(before, i, j, sid, kinds) :: j < n && before[j] == events[j])
  {
    var n := |events| - 1;
    var before := events[..n];
    hide Mentions;
    if HasNone(before, i, sid, kinds) && !Mentions(events[n], sid, kinds) {
      forall k: nat | i < k < |events| ensures !Mentions(events[k], sid, kinds) {
        assert k < n ==> before[k] == events[k];
      }
    }
    if HasNone(events, i, sid, kinds) {
      forall k: nat | i < k < n ensures !Mentions(before[k], sid, kinds) {
        assert before[k] == events[k];
      }
    }
    forall j: nat
      ensures IsLast(events, i, j, sid, kinds) <==>
              if Mentions(events[n], sid, kinds) then j == n else IsLast(before, i, j, sid, kinds)
    {
      assert forall k: nat | k < n :: before[k] == events[k];
    }
  }

  /** The row of `sid` after one more event. */
  function Next(s: Session, e: Event, sid: Sid): Session {
    if e.sessionId != Some(sid) then s
    else
      match e.kind
      case Complete =>
        s.(status := Completed, completedAt := Some(TimeOf(e)),
           grants := if e.grants.None? then [] else e.grants.value)
      case Failed => s.(status := HasFailed, error := e.error)
      case _ => s
  }

  lemma RowStep(table: Table, e: Event, sid: Sid)
    ensures sid in table ==> sid in OnEvent(table, e) && OnEvent(table, e)[sid] == Next(table[sid], e, sid)
    ensures sid !in table && Mentions(e, sid, {Started}) ==>
              sid in OnEvent(table, e) && FromStart(OnEvent(table, e)[sid], e) && IsBlank(OnEvent(table, e)[sid])
  {
  }

  predicate IsBlank(s: Session) { s.status.InProgress? && s.completedAt.None? && s.grants == [] && s.error.None? }

  lemma NextWrites(s: Session, e: Event, sid: Sid)
    ensures var t := Next(s, e, sid);
            && (if Mentions(e, sid, {Complete}) then FromComplete(t, e)
                else t.completedAt == s.completedAt && t.grants == s.grants)
            && t.error == (if Mentions(e, sid, {Failed}) then e.error else s.error)
            && t.status == if !Mentions(e, sid, {Complete, Failed}) then s.status
                           else if e.kind.Complete? then Completed else HasFailed
  {
  }

  lemma CompletionIsPush(s: Session, events: seq<Event>, i: nat, sid: Sid)
    requires i + 1 < |events| && CompletionIs(s, events[..|events| - 1], i, sid)
    ensures CompletionIs(Next(s, events[|events| - 1], sid), events, i, sid)
  {
    hide IsLast, HasNone, Mentions, Next;
    var n := |events| - 1;
    LastPush(events, i, sid, {Complete});
    NextWrites(s, events[n], sid);
  }

  lemma ErrorIsPush(s: Session, events: seq<Event>, i: nat, sid: Sid)
    requires i + 1 < |events| && ErrorIs(s, events[..|events| - 1], i, sid)
    ensures ErrorIs(Next(s, events[|events| - 1], sid), events, i, sid)
  {
    hide IsLast, HasNone, Mentions, Next;
    var n := |events| - 1;
    LastPush(events, i, sid, {Failed});
    NextWrites(s, events[n], sid);
  }

  lemma StatusIsPush(s: Session, events: seq<Event>, i: nat, sid: Sid)
    requires i + 1 < |events| && StatusIs(s, events[..|events| - 1], i, sid)
    ensures StatusIs(Next(s, events[|events| - 1], sid), events, i, sid)
  {
    hide IsLast, HasNone, Mentions, Next;
    var n := |events| - 1;
    LastPush(events, i, sid, {Complete, Failed});
    NextWrites(s, events[n], sid);
  }

  lemma StartStays(s: Session, e: Event, start: Event, sid: Sid)
    ensures FromStart(Next(s, e, sid), start) <==> FromStart(s, start)
  {
  }

  lemma BlankColumns(s: Session, events: seq<Event>, sid: Sid)
    requires events != [] && IsBlank(s)
    ensures var i := |events| - 1;
            CompletionIs(s, events, i, sid) && ErrorIs(s, events, i, sid) && StatusIs(s, events, i, sid)
  {
  }

  /** A session has a row once it started, and each column holds what its one or last writer in the log wrote. */
  lemma {:induction false} RowColumns(events: seq<Event>, i: nat, sid: Sid)
    requires IsFirstStart(events, i, sid)
    ensures sid in Ingest(map[], events) && Columns(Ingest(map[], events)[sid], events, i, sid)
  {
    var n := |events| - 1;
    var before := events[..n];
    IngestPush(map[], events);
    RowStep(Ingest(map[], before), events[n], sid);
    hide Ingest, OnEvent, Mentions, FromStart, FromComplete, CompletionIs, ErrorIs, StatusIs;
    if i == n {
      NoStartNoRow(before, sid);
      BlankColumns(Ingest(map[], events)[sid], events, sid);
    } else {
      assert IsFirstStart(before, i, sid);
      RowColumns(before, i, sid);
      var s := Ingest(map[], before)[sid];
      StartStays(s, events[n], events[i], sid);
      hide Next;
      CompletionIsPush(s, events, i, sid);
      ErrorIsPush(s, events, i, sid);
      StatusIsPush(s, events, i, sid);
    }
  }
}
