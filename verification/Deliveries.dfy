/**
 * Which delivery rows a request writes, said of the events its insert put in
 * the table and of the webhooks as it listed them.
 */
module Deliveries {
  import opened Text
  import opened Batch
  import opened FanOut

  ghost function At(actions: seq<Action>): Sys { Run(START, actions) }

  function Front(actions: seq<Action>): seq<Action>
    requires actions != []
  {
    actions[..|actions| - 1]
  }

  function Last(actions: seq<Action>): Action
    requires actions != []
  {
    actions[|actions| - 1]
  }

  /** The events that the insert of request `r` put in the table. */
  ghost function Inserted(actions: seq<Action>, r: Replica): set<Event> {
    if actions == [] then {}
    else
      var before, after := At(Front(actions)), At(actions);
      if Last(actions) == Insert(r) && r in before.requests && before.requests[r].Posted?
      then set id | id in after.table && id !in before.table :: after.table[id]
      else Inserted(Front(actions), r)
  }

  /** The webhooks when request `r` listed them, if it has and the listing succeeded. */
  ghost function Listed(actions: seq<Action>, r: Replica): Option<map<HookId, Hook>> {
    if actions == [] then None
    else
      var before := At(Front(actions));
      if Last(actions) == ListWebhooks(r, true) && r in before.requests && before.requests[r].Stored?
      then Some(before.hooks)
      else Listed(Front(actions), r)
  }

  /** The delivery rows that the steps of request `r` added to the table. */
  ghost function Rows(actions: seq<Action>, r: Replica): multiset<Job> {
    if actions == [] then multiset{}
    else if Last(actions).Enqueue? && Last(actions).r == r
    then Rows(Front(actions), r) + (At(actions).rows - At(Front(actions)).rows)
    else Rows(Front(actions), r)
  }

  /** The rows that request `r` tried to insert in vain. */
  ghost function Lost(actions: seq<Action>, r: Replica): set<Job> {
    if actions == [] then {}
    else
      var before, a := At(Front(actions)), Last(actions);
      if a.Enqueue? && a.r == r && !a.ok && r in before.requests && MayEnqueue(before.requests[r], a.job) &&
         before.requests[r].Enqueueing?
      then Lost(Front(actions), r) + {a.job}
      else Lost(Front(actions), r)
  }

  /** One of the event types that are ever delivered. */
  predicate IsDelivered(kind: string) {
    kind == "agent.registered" || kind == "agent.expired" || kind == "agent.deregistered" ||
    kind == "handshake.complete" || kind == "handshake.failed" || kind == "tct.revoked"
  }

  /** An event of `events` is due to an active webhook that subscribes to its type, or to all types. */
  ghost predicate Due(job: Job, events: set<Event>, hooks: map<HookId, Hook>) {
    && job.hook in hooks && hooks[job.hook].active
    && exists e | e in events ::
         e.id == job.id && IsDelivered(e.kind) && (|hooks[job.hook].kinds| == 0 || e.kind in hooks[job.hook].kinds)
  }

  ghost predicate IsDue(job: Job, events: set<Event>, listed: Option<map<HookId, Hook>>) {
    listed.Some? && Due(job, events, listed.value)
  }

  /** What a request knows and has written, against the run. */
  ghost predicate Follows(
    p: Phase, events: set<Event>, listed: Option<map<HookId, Hook>>, rows: multiset<Job>, lost: set<Job>)
  {
    match p
    case Posted(_) => events == {} && listed == None && rows == multiset{} && lost == {}
    case Stored(added) =>
      (forall e :: e in added <==> e in events) && listed == None && rows == multiset{} && lost == {}
    case Publishing(_, plan) => IsPlan(plan, events, listed) && rows == multiset{} && lost == {}
    case Enqueueing(plan, todo, failed) =>
      && IsPlan(plan, events, listed)
      && todo <= plan && failed <= plan && todo !! failed && failed == lost
      && rows == multiset(plan - todo - failed)
    case Crashed => true
  }

  ghost predicate IsPlan(plan: set<Job>, events: set<Event>, listed: Option<map<HookId, Hook>>) {
    forall job :: job in plan <==> IsDue(job, events, listed)
  }

  ghost predicate Fits(actions: seq<Action>, r: Replica) {
    if r in At(actions).requests
    then
      Follows(At(actions).requests[r], Inserted(actions, r), Listed(actions, r), Rows(actions, r), Lost(actions, r))
    else
      && Inserted(actions, r) == {} && Listed(actions, r) == None
      && Rows(actions, r) == multiset{} && Lost(actions, r) == {}
  }

  lemma {:induction false} RunAppend(s: Sys, actions: seq<Action>, a: Action)
    ensures Run(s, actions + [a]) == Do(Run(s, actions), a)
    decreases |actions|
  {
    hide Do;
    if actions == [] {
      assert [] + [a] == [a] && [a][1..] == [];
      assert Run(Do(s, a), []) == Do(s, a);
    } else {
      RunAppend(Do(s, actions[0]), actions[1..], a);
      assert (actions + [a])[1..] == actions[1..] + [a];
    }
  }

  lemma LastStep(actions: seq<Action>)
    requires actions != []
    ensures At(actions) == Do(At(Front(actions)), Last(actions))
  {
    RunAppend(START, Front(actions), Last(actions));
    assert actions == Front(actions) + [Last(actions)];
  }

  lemma InsertedEvents(table: Table, batch: seq<Event>)
    ensures var after := InsertRows(table, batch);
            var events := set id | id in after && id !in table :: after[id];
            forall e :: e in Added(table, batch) <==> e in events
  {
    InsertIsExact(table, batch);
    AddedIsNew(table, batch);
    hide Added, InsertRows, Distinct;
    var after := InsertRows(table, batch);
    forall id | id in after && id !in table ensures after[id] in Added(table, batch) {
      assert id in Ids(Added(table, batch));
    }
  }

  lemma PlanIsDue(added: seq<Event>, events: set<Event>, hooks: map<HookId, Hook>)
    requires forall e :: e in added <==> e in events
    ensures forall job :: job in Plan(added, hooks) <==> Due(job, events, hooks)
  {
    forall job ensures job in Plan(added, hooks) <==> Due(job, events, hooks) {
      if job in Plan(added, hooks) {
        var e, h :| e in added && h in hooks && e.kind in DELIVERABLE && Wants(hooks[h], e.kind) && job == Job(e.id, h);
        assert e in events;
      }
    }
  }

  /** Whose step an action is, if a request's. */
  function Actor(a: Action): Option<Replica> {
    match a
    case Begin(r, _) => Some(r)
    case Insert(r) => Some(r)
    case ListWebhooks(r, _) => Some(r)
    case Publish(r) => Some(r)
    case Enqueue(r, _, _) => Some(r)
    case Crash(r) => Some(r)
    case _ => None
  }

  lemma HistoryStays(actions: seq<Action>, r: Replica)
    requires actions != []
    requires Actor(Last(actions)) != Some(r) ||
             !(Last(actions).Insert? || Last(actions).ListWebhooks? || Last(actions).Enqueue?)
    ensures Inserted(actions, r) == Inserted(Front(actions), r) && Listed(actions, r) == Listed(Front(actions), r)
    ensures Rows(actions, r) == Rows(Front(actions), r) && Lost(actions, r) == Lost(Front(actions), r)
  {
  }

  lemma OthersKeepPhase(s: Sys, a: Action, r: Replica)
    requires Actor(a) != Some(r)
    ensures r in Do(s, a).requests <==> r in s.requests
    ensures r in s.requests ==> Do(s, a).requests[r] == s.requests[r]
  {
    hide Unique, InsertRows, Added, Plan, Unpublished;
  }

  /** A step of another request, or of none, leaves `r` as it was. */
  lemma OthersKeepFit(actions: seq<Action>, r: Replica)
    requires actions != [] && Fits(Front(actions), r) && Actor(Last(actions)) != Some(r)
    ensures Fits(actions, r)
  {
    LastStep(actions);
    HistoryStays(actions, r);
    OthersKeepPhase(At(Front(actions)), Last(actions), r);
    hide At, Do, Follows, Inserted, Listed, Rows, Lost, Actor;
  }

  lemma InsertFits(actions: seq<Action>, r: Replica)
    requires actions != [] && Fits(Front(actions), r) && Last(actions) == Insert(r)
    ensures Fits(actions, r)
  {
    LastStep(actions);
    hide At, Unique, InsertRows, Added, Plan, Unpublished;
    var s := At(Front(actions));
    if r in s.requests && s.requests[r].Posted? {
      InsertedEvents(s.table, s.requests[r].batch);
    }
  }

  lemma ListStep(s: Sys, r: Replica, ok: bool)
    ensures var t := Do(s, ListWebhooks(r, ok));
            if r in s.requests && s.requests[r].Stored? then
              && r in t.requests && t.requests[r].Publishing?
              && t.requests[r].plan == if ok then Plan(s.requests[r].added, s.hooks) else {}
            else t == s
  {
  }

  lemma ListHistory(actions: seq<Action>, r: Replica)
    requires actions != [] && Last(actions).ListWebhooks? && Last(actions).r == r
    ensures Inserted(actions, r) == Inserted(Front(actions), r)
    ensures Rows(actions, r) == Rows(Front(actions), r) && Lost(actions, r) == Lost(Front(actions), r)
    ensures var s := At(Front(actions));
            Listed(actions, r) == if Last(actions).ok && r in s.requests && s.requests[r].Stored? then Some(s.hooks)
                                  else Listed(Front(actions), r)
  {
    hide At;
  }

  lemma ListFits(actions: seq<Action>, r: Replica)
    requires actions != [] && Fits(Front(actions), r) && Last(actions).ListWebhooks? && Last(actions).r == r
    ensures Fits(actions, r)
  {
    hide At, Do, Due, Plan, Inserted, Listed, Rows, Lost;
    LastStep(actions);
    var s := At(Front(actions));
    ListStep(s, r, Last(actions).ok);
    ListHistory(actions, r);
    if r in s.requests && s.requests[r].Stored? && Last(actions).ok {
      PlanIsDue(s.requests[r].added, Inserted(Front(actions), r), s.hooks);
    }
  }

  lemma EnqueueFollows(
    p: Phase, job: Job, ok: bool, events: set<Event>, listed: Option<map<HookId, Hook>>, rows: multiset<Job>,
    lost: set<Job>)
    requires Follows(p, events, listed, rows, lost) && p.Enqueueing? && job in p.todo
    ensures Follows(
              Enqueueing(p.plan, p.todo - {job}, if ok then p.failed else p.failed + {job}), events, listed,
              if ok then rows + multiset{job} else rows, if ok then lost else lost + {job})
  {
    hide IsPlan;
    var todo := p.todo - {job};
    if ok {
      assert p.plan - todo - p.failed == (p.plan - p.todo - p.failed) + {job};
    } else {
      assert p.plan - todo - (p.failed + {job}) == p.plan - p.todo - p.failed;
    }
  }

  lemma EnqueueStep(s: Sys, r: Replica, job: Job, ok: bool)
    ensures var t := Do(s, Enqueue(r, job, ok));
            if r in s.requests && s.requests[r].Enqueueing? && job in s.requests[r].todo then
              var p := s.requests[r];
              && r in t.requests
              && t.requests[r] == Enqueueing(p.plan, p.todo - {job}, if ok then p.failed else p.failed + {job})
              && t.rows - s.rows == if ok then multiset{job} else multiset{}
            else t == s && t.rows - s.rows == multiset{}
  {
  }

  lemma EnqueueHistory(actions: seq<Action>, r: Replica)
    requires actions != [] && Last(actions).Enqueue? && Last(actions).r == r
    ensures Inserted(actions, r) == Inserted(Front(actions), r) && Listed(actions, r) == Listed(Front(actions), r)
    ensures var s, t, job, ok := At(Front(actions)), At(actions), Last(actions).job, Last(actions).ok;
            if r in s.requests && s.requests[r].Enqueueing? && job in s.requests[r].todo then
              var p := s.requests[r];
              && r in t.requests
              && t.requests[r] == Enqueueing(p.plan, p.todo - {job}, if ok then p.failed else p.failed + {job})
              && Rows(actions, r) == (if ok then Rows(Front(actions), r) + multiset{job} else Rows(Front(actions), r))
              && Lost(actions, r) == (if ok then Lost(Front(actions), r) else Lost(Front(actions), r) + {job})
            else t == s && Rows(actions, r) == Rows(Front(actions), r) && Lost(actions, r) == Lost(Front(actions), r)
  {
    hide At, Do, Inserted, Listed;
    LastStep(actions);
    EnqueueStep(At(Front(actions)), r, Last(actions).job, Last(actions).ok);
    InsertedStays(actions, r);
    assert Rows(Front(actions), r) + multiset{} == Rows(Front(actions), r);
  }

  lemma InsertedStays(actions: seq<Action>, r: Replica)
    requires actions != [] && Last(actions).Enqueue?
    ensures Inserted(actions, r) == Inserted(Front(actions), r) && Listed(actions, r) == Listed(Front(actions), r)
  {
  }

  lemma EnqueueFits(actions: seq<Action>, r: Replica)
    requires actions != [] && Fits(Front(actions), r) && Last(actions).Enqueue? && Last(actions).r == r
    ensures Fits(actions, r)
  {
    hide At, Follows, Inserted, Listed, Rows, Lost;
    EnqueueHistory(actions, r);
    var s, job, ok := At(Front(actions)), Last(actions).job, Last(actions).ok;
    if r in s.requests && s.requests[r].Enqueueing? && job in s.requests[r].todo {
      EnqueueFollows(s.requests[r], job, ok, Inserted(actions, r), Listed(actions, r), Rows(Front(actions), r),
                     Lost(Front(actions), r));
    }
  }

  lemma QuietStep(s: Sys, a: Action, r: Replica)
    requires Actor(a) == Some(r) && (a.Begin? || a.Publish? || a.Crash?)
    ensures r in s.requests ==>
              var p := s.requests[r];
              && r in Do(s, a).requests
              && (Do(s, a).requests[r] == p || Do(s, a).requests[r].Crashed? ||
                  (p.Publishing? && Do(s, a).requests[r] == Enqueueing(p.plan, p.plan, {})) ||
                  (p.Publishing? && Do(s, a).requests[r].Publishing? && Do(s, a).requests[r].plan == p.plan))
    ensures r !in s.requests && r in Do(s, a).requests ==> a.Begin? && Do(s, a).requests[r].Posted?
  {
    hide Unique, InsertRows, Added, Plan, Unpublished;
  }

  lemma QuietFollows(
    events: set<Event>, listed: Option<map<HookId, Hook>>, rows: multiset<Job>, lost: set<Job>)
    ensures Follows(Crashed, events, listed, rows, lost)
    ensures forall queue, rest, plan | Follows(Publishing(queue, plan), events, listed, rows, lost) ::
              && Follows(Publishing(rest, plan), events, listed, rows, lost)
              && Follows(Enqueueing(plan, plan, {}), events, listed, rows, lost)
    ensures events == {} && listed == None && rows == multiset{} && lost == {} ==>
              forall batch :: Follows(Posted(batch), events, listed, rows, lost)
  {
    hide IsPlan;
    forall queue, plan | Follows(Publishing(queue, plan), events, listed, rows, lost)
      ensures Follows(Enqueueing(plan, plan, {}), events, listed, rows, lost)
    {
      assert plan - plan - {} == {};
    }
  }

  /** Beginning, publishing and crashing write no row. */
  lemma QuietFits(actions: seq<Action>, r: Replica)
    requires actions != [] && Fits(Front(actions), r) && Actor(Last(actions)) == Some(r)
    requires Last(actions).Begin? || Last(actions).Publish? || Last(actions).Crash?
    ensures Fits(actions, r)
  {
    LastStep(actions);
    HistoryStays(actions, r);
    QuietStep(At(Front(actions)), Last(actions), r);
    hide At, Do, Follows, Inserted, Listed, Rows, Lost;
    var s := At(Front(actions));
    QuietFollows(Inserted(actions, r), Listed(actions, r), Rows(actions, r), Lost(actions, r));
  }

  lemma {:induction false} RequestsFit(actions: seq<Action>, r: Replica)
    ensures Fits(actions, r)
    decreases |actions|
  {
    hide Follows, Do, Run;
    if actions == [] {
      NothingFits(r);
    } else {
      RequestsFit(Front(actions), r);
      hide Fits;
      if Actor(Last(actions)) != Some(r) {
        OthersKeepFit(actions, r);
      } else if Last(actions).Insert? {
        InsertFits(actions, r);
      } else if Last(actions).ListWebhooks? {
        ListFits(actions, r);
      } else if Last(actions).Enqueue? {
        EnqueueFits(actions, r);
      } else {
        QuietFits(actions, r);
      }
    }
  }

  lemma NothingFits(r: Replica)
    ensures Fits([], r)
  {
  }

  /**
   * A finished request has written one row for each event it inserted and each
   * webhook it was due to as then listed, failed inserts aside, and no other.
   */
  lemma RowsAreExact(actions: seq<Action>, r: Replica)
    requires var s := At(actions); r in s.requests && s.requests[r].Enqueueing? && s.requests[r].todo == {}
    ensures forall job ::
              Rows(actions, r)[job] ==
              if Listed(actions, r).Some? && Due(job, Inserted(actions, r), Listed(actions, r).value) &&
                 job !in Lost(actions, r) then 1 else 0
  {
    RequestsFit(actions, r);
    hide At, Inserted, Listed, Rows, Lost, Due;
    var p := At(actions).requests[r];
    assert p.plan - {} - p.failed == p.plan - p.failed;
    assert IsPlan(p.plan, Inserted(actions, r), Listed(actions, r));
  }

  // ---------------------------------------------------------------- which events a request inserts

  /** The normalised events that request `r` began with. */
  ghost function Asked(actions: seq<Action>, r: Replica): seq<Event> {
    if actions == [] then []
    else if Last(actions).Begin? && Last(actions).r == r && r !in At(Front(actions)).requests
    then Last(actions).normalized
    else Asked(Front(actions), r)
  }

  /** The ids already stored when request `r` inserted. */
  ghost function Known(actions: seq<Action>, r: Replica): set<EventId> {
    if actions == [] then {}
    else
      var before := At(Front(actions));
      if Last(actions) == Insert(r) && r in before.requests && before.requests[r].Posted? then before.table.Keys
      else Known(Front(actions), r)
  }

  /** The first of each id not known. */
  ghost predicate AreNew(events: set<Event>, asked: seq<Event>, known: set<EventId>) {
    forall e :: e in events <==>
                exists i: nat :: i < |asked| && IsFirst(asked, i) && e == asked[i] && e.id !in known
  }

  ghost predicate Takes(p: Phase, events: set<Event>, asked: seq<Event>, known: set<EventId>) {
    match p
    case Posted(batch) => batch == Unique(asked)
    case Crashed => true
    case _ => AreNew(events, asked, known)
  }

  ghost predicate TakesAll(actions: seq<Action>, r: Replica) {
    r in At(actions).requests ==>
      Takes(At(actions).requests[r], Inserted(actions, r), Asked(actions, r), Known(actions, r))
  }

  lemma NewEvents(table: Table, asked: seq<Event>)
    ensures var after := InsertRows(table, Unique(asked));
            AreNew(set id | id in after && id !in table :: after[id], asked, table.Keys)
  {
    var n := |asked|;
    DedupeThenInsert(table, asked);
    InsertIsExact(table, asked);
    hide Unique, InsertRows, IsFirst;
    var after := InsertRows(table, asked);
    var events := set id | id in after && id !in table :: after[id];
    forall e | e in events ensures exists i: nat :: i < n && IsFirst(asked, i) && e == asked[i] && e.id !in table {
      var id :| id in after && id !in table && e == after[id];
      var i := FirstOf(asked, id);
    }
  }

  lemma FirstOf(es: seq<Event>, id: EventId) returns (i: nat)
    requires id in Ids(es)
    ensures i < |es| && es[i].id == id && IsFirst(es, i)
  {
    i := 0;
    while es[i].id != id
      invariant i < |es| && forall j | 0 <= j < i :: es[j].id != id
      decreases |es| - i
    {
      i := i + 1;
    }
  }

  lemma KindStep(s: Sys, a: Action, r: Replica)
    requires a != Insert(r)
    ensures var t := Do(s, a);
            r in t.requests && !t.requests[r].Crashed? && (a.Begin? && a.r == r ==> r in s.requests) ==>
              && r in s.requests && !s.requests[r].Crashed?
              && (if t.requests[r].Posted? then t.requests[r] == s.requests[r] else !s.requests[r].Posted?)
  {
    hide Do, Plan;
    if Actor(a) != Some(r) {
      OthersKeepPhase(s, a, r);
    } else if a.ListWebhooks? {
      ListStep(s, r, a.ok);
    } else if a.Enqueue? {
      EnqueueStep(s, r, a.job, a.ok);
    } else {
      QuietStep(s, a, r);
    }
  }

  lemma AskedStays(actions: seq<Action>, r: Replica)
    requires actions != [] && Last(actions) != Insert(r)
    requires Last(actions).Begin? && Last(actions).r == r ==> r in At(Front(actions)).requests
    ensures Inserted(actions, r) == Inserted(Front(actions), r) && Asked(actions, r) == Asked(Front(actions), r)
    ensures Known(actions, r) == Known(Front(actions), r)
  {
  }

  lemma BeginTakes(actions: seq<Action>, r: Replica)
    requires actions != [] && Last(actions).Begin? && Last(actions).r == r && r !in At(Front(actions)).requests
    ensures TakesAll(actions, r)
  {
    hide At, Unique, Inserted, Known;
    LastStep(actions);
  }

  lemma InsertTakes(actions: seq<Action>, r: Replica)
    requires actions != [] && Last(actions) == Insert(r) && TakesAll(Front(actions), r)
    ensures TakesAll(actions, r)
  {
    hide At, Unique, Added, InsertRows, AreNew;
    LastStep(actions);
    var s := At(Front(actions));
    if r in s.requests && s.requests[r].Posted? {
      NewEvents(s.table, Asked(Front(actions), r));
    }
  }

  lemma {:induction false} RequestsTake(actions: seq<Action>, r: Replica)
    ensures TakesAll(actions, r)
    decreases |actions|
  {
    if actions == [] {
      assert At(actions) == START;
    } else {
      RequestsTake(Front(actions), r);
      LastStep(actions);
      hide At, Do, Inserted, Asked, Known, AreNew, Unique;
      if Last(actions) == Insert(r) {
        InsertTakes(actions, r);
      } else if Last(actions).Begin? && Last(actions).r == r && r !in At(Front(actions)).requests {
        BeginTakes(actions, r);
      } else {
        KindStep(At(Front(actions)), Last(actions), r);
        AskedStays(actions, r);
      }
    }
  }

  /** A request inserts exactly the first of each id it was asked for that the table then lacked. */
  lemma InsertedAreNew(actions: seq<Action>, r: Replica)
    requires var s := At(actions); r in s.requests && !s.requests[r].Posted? && !s.requests[r].Crashed?
    ensures AreNew(Inserted(actions, r), Asked(actions, r), Known(actions, r))
  {
    RequestsTake(actions, r);
  }

  /** A request that has not crashed can finish, whatever its inserts meet. */
  lemma {:induction false} CanFinish(s: Sys, r: Replica) returns (more: seq<Action>)
    requires r in s.requests && !s.requests[r].Crashed?
    ensures var t := Run(s, more); r in t.requests && t.requests[r].Enqueueing? && t.requests[r].todo == {}
    decreases
      match s.requests[r]
      case Posted(_) => 3
      case Stored(_) => 2
      case Publishing(_, _) => 1
      case _ => 0,
      match s.requests[r]
      case Publishing(queue, _) => |queue|
      case Enqueueing(_, todo, _) => |todo|
      case _ => 0
  {
    hide Unique, InsertRows, Added, Plan, Unpublished;
    more := [];
    if s.requests[r].Enqueueing? && s.requests[r].todo == {} {
      return;
    }
    var a: Action;
    match s.requests[r] {
      case Posted(_) => a := Insert(r);
      case Stored(_) => a := ListWebhooks(r, true);
      case Publishing(_, _) => a := Publish(r);
      case Enqueueing(_, todo, _) =>
        var job :| job in todo;
        a := Enqueue(r, job, true);
      case _ =>
    }
    var rest := CanFinish(Do(s, a), r);
    more := [a] + rest;
    assert more[1..] == rest;
  }
}
