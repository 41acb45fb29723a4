/**
 * Ingest across replicas: overlapping batches race on one table, and only the
 * replica whose insert won an id publishes the event and enqueues deliveries.
 */
module FanOut {
  import opened Text
  import opened Batch

  type HookId = string
  /** A request, on whichever replica it runs. */
  type Replica = nat

  /** A webhook; no listed kinds means all of them. */
  datatype Hook = Hook(active: bool, kinds: seq<string>)

  /** One delivery row to enqueue. */
  datatype Job = Job(id: EventId, hook: HookId)

  const DELIVERABLE: set<string> :=
    {"agent.registered", "agent.expired", "agent.deregistered", "handshake.complete", "handshake.failed", "tct.revoked"}

  predicate Wants(h: Hook, kind: string) { h.active && (h.kinds == [] || kind in h.kinds) }

  /** The deliveries of the events in `added`, for the webhooks as they were listed. */
  function Plan(added: seq<Event>, hooks: map<HookId, Hook>): set<Job> {
    set e, h | e in added && h in hooks && e.kind in DELIVERABLE && Wants(hooks[h], e.kind) :: Job(e.id, h)
  }

  /** Where a request is. `queue` is still to be published, `todo` still to be enqueued. */
  datatype Phase =
    | Posted(batch: seq<Event>)
    | Stored(added: seq<Event>)
    | Publishing(queue: seq<Event>, plan: set<Job>)
    | Enqueueing(plan: set<Job>, todo: set<Job>, failed: set<Job>)
    | Crashed

  /**
   * `wins`, `purges`, `published` and `rows` count, over the whole run, the
   * inserts of an id, its removals by retention, its publishes, and the
   * delivery rows of an event for a webhook; `lost` counts the publishes that
   * a crash prevented.
   */
  datatype Sys = Sys(
    table: Table, hooks: map<HookId, Hook>, requests: map<Replica, Phase>,
    wins: multiset<EventId>, purges: multiset<EventId>, published: multiset<EventId>, lost: multiset<EventId>,
    rows: multiset<Job>)

  const START := Sys(map[], map[], map[], multiset{}, multiset{}, multiset{}, multiset{}, multiset{})

  datatype Action =
    | Begin(r: Replica, normalized: seq<Event>)
    | Insert(r: Replica)
    | ListWebhooks(r: Replica, ok: bool)
    | Publish(r: Replica)
    | Enqueue(r: Replica, job: Job, ok: bool)
    | Crash(r: Replica)
    | Configure(hook: HookId, to: Hook)
    | DeleteHook(hook: HookId)
    | Purge(id: EventId)

  /** The ids a request has won but not published yet. */
  function Unpublished(p: Phase): set<EventId> {
    match p
    case Stored(added) => Ids(added)
    case Publishing(queue, _) => Ids(queue)
    case _ => {}
  }

  function DoInsert(s: Sys, r: Replica): Sys
    requires r in s.requests && s.requests[r].Posted?
  {
    var batch := s.requests[r].batch;
    var added := Added(s.table, batch);
    s.(table := InsertRows(s.table, batch), wins := s.wins + multiset(Ids(added)),
       requests := s.requests[r := Stored(added)])
  }

  /** A failing list skips the webhooks, not the publishes. */
  function DoList(s: Sys, r: Replica, ok: bool): Sys
    requires r in s.requests && s.requests[r].Stored?
  {
    var added := s.requests[r].added;
    s.(requests := s.requests[r := Publishing(added, if ok then Plan(added, s.hooks) else {})])
  }

  function DoPublish(s: Sys, r: Replica): Sys
    requires r in s.requests && s.requests[r].Publishing?
  {
    var p := s.requests[r];
    if p.queue == [] then s.(requests := s.requests[r := Enqueueing(p.plan, p.plan, {})])
    else
      s.(requests := s.requests[r := Publishing(p.queue[1..], p.plan)],
         published := s.published + multiset{p.queue[0].id})
  }

  /** A delivery row is inserted, or its insert fails; there is no second try. */
  function DoEnqueue(s: Sys, r: Replica, job: Job, ok: bool): Sys
    requires r in s.requests && s.requests[r].Enqueueing? && job in s.requests[r].todo
  {
    var p := s.requests[r];
    var next := Enqueueing(p.plan, p.todo - {job}, if ok then p.failed else p.failed + {job});
    s.(requests := s.requests[r := next], rows := if ok then s.rows + multiset{job} else s.rows)
  }

  function Do(s: Sys, a: Action): Sys {
    match a
    case Begin(r, normalized) =>
      if r in s.requests then s else s.(requests := s.requests[r := Posted(Unique(normalized))])
    case Insert(r) => if r in s.requests && s.requests[r].Posted? then DoInsert(s, r) else s
    case ListWebhooks(r, ok) => if r in s.requests && s.requests[r].Stored? then DoList(s, r, ok) else s
    case Publish(r) => if r in s.requests && s.requests[r].Publishing? then DoPublish(s, r) else s
    case Enqueue(r, job, ok) =>
      if r in s.requests && s.requests[r].Enqueueing? && job in s.requests[r].todo then DoEnqueue(s, r, job, ok) else s
    case Crash(r) =>
      if r !in s.requests then s
      else s.(requests := s.requests[r := Crashed], lost := s.lost + multiset(Unpublished(s.requests[r])))
    case Configure(hook, to) => s.(hooks := s.hooks[hook := to])
    case DeleteHook(hook) => s.(hooks := s.hooks - {hook})
    case Purge(id) =>
      if id !in s.table then s else s.(table := s.table - {id}, purges := s.purges + multiset{id})
  }

  function Run(s: Sys, actions: seq<Action>): Sys
    decreases |actions|
  {
    if actions == [] then s else Run(Do(s, actions[0]), actions[1..])
  }

  // ---------------------------------------------------------------- conservation

  /** The requests that have yet to publish `id`. */
  function Pending(requests: map<Replica, Phase>, id: EventId): set<Replica> {
    set r | r in requests && id in Unpublished(requests[r])
  }

  /** A request that may yet insert a row for the job. */
  predicate MayEnqueue(p: Phase, job: Job) {
    match p
    case Stored(added) => job.id in Ids(added)
    case Publishing(_, plan) => job in plan
    case Enqueueing(_, todo, _) => job in todo
    case _ => false
  }

  function Claims(requests: map<Replica, Phase>, job: Job): set<Replica> {
    set r | r in requests && MayEnqueue(requests[r], job)
  }

  predicate PhaseFits(p: Phase, rows: multiset<Job>) {
    match p
    case Posted(batch) => Distinct(batch)
    case Stored(added) => Distinct(added)
    case Publishing(queue, _) => Distinct(queue)
    case Enqueueing(plan, todo, failed) => forall job | job in plan :: job in todo || job in failed || job in rows
    case Crashed => true
  }

  /**
   * The books. An id is won once more than it is purged exactly while it is
   * stored; every win is published, about to be, or lost in a crash; and the
   * rows of an event for a webhook, with those still to come, never exceed its
   * wins.
   */
  ghost predicate Balanced(s: Sys) {
    && (forall id :: s.wins[id] == s.purges[id] + if id in s.table then 1 else 0)
    && (forall id :: s.published[id] + s.lost[id] + |Pending(s.requests, id)| == s.wins[id])
    && (forall job :: s.rows[job] + |Claims(s.requests, job)| <= s.wins[job.id])
    && (forall r | r in s.requests :: PhaseFits(s.requests[r], s.rows))
  }

  predicate IsPending(requests: map<Replica, Phase>, r: Replica, id: EventId) {
    r in requests && id in Unpublished(requests[r])
  }

  predicate HasClaim(requests: map<Replica, Phase>, r: Replica, job: Job) {
    r in requests && MayEnqueue(requests[r], job)
  }

  lemma PendingAfter(requests: map<Replica, Phase>, r: Replica, p: Phase, id: EventId)
    ensures |Pending(requests[r := p], id)| + (if IsPending(requests, r, id) then 1 else 0) ==
            |Pending(requests, id)| + if id in Unpublished(p) then 1 else 0
  {
    hide Unpublished;
    DifferAtOne(Pending(requests, id), Pending(requests[r := p], id), r);
  }

  lemma ClaimsAfter(requests: map<Replica, Phase>, r: Replica, p: Phase, job: Job)
    ensures |Claims(requests[r := p], job)| + (if HasClaim(requests, r, job) then 1 else 0) ==
            |Claims(requests, job)| + if MayEnqueue(p, job) then 1 else 0
  {
    hide MayEnqueue;
    DifferAtOne(Claims(requests, job), Claims(requests[r := p], job), r);
  }

  /** Publishes of an id, done, lost or due after the move of `r` to `p`, against its wins. */
  ghost predicate KeepsPublishes(s: Sys, t: Sys, r: Replica, p: Phase, id: EventId) {
    t.published[id] + t.lost[id] + (if id in Unpublished(p) then 1 else 0) + s.wins[id] ==
    s.published[id] + s.lost[id] + (if IsPending(s.requests, r, id) then 1 else 0) + t.wins[id]
  }

  ghost predicate KeepsRows(s: Sys, t: Sys, r: Replica, p: Phase, job: Job) {
    t.rows[job] + (if MayEnqueue(p, job) then 1 else 0) + s.wins[job.id] <=
    s.rows[job] + (if HasClaim(s.requests, r, job) then 1 else 0) + t.wins[job.id]
  }

  /** A request moves to `p`, and everything it owed is paid, written off or still owed. */
  lemma MoveKeepsBalance(s: Sys, t: Sys, r: Replica, p: Phase)
    requires Balanced(s) && t.requests == s.requests[r := p]
    requires forall id :: t.wins[id] == t.purges[id] + if id in t.table then 1 else 0
    requires forall id :: KeepsPublishes(s, t, r, p, id)
    requires forall job :: KeepsRows(s, t, r, p, job)
    requires PhaseFits(p, t.rows) && s.rows <= t.rows
    ensures Balanced(t)
  {
    hide Unpublished, MayEnqueue, Pending, Claims, PhaseFits, IsPending, HasClaim;
    forall id ensures t.published[id] + t.lost[id] + |Pending(t.requests, id)| == t.wins[id] {
      PendingAfter(s.requests, r, p, id);
      assert KeepsPublishes(s, t, r, p, id);
    }
    forall job ensures t.rows[job] + |Claims(t.requests, job)| <= t.wins[job.id] {
      ClaimsAfter(s.requests, r, p, job);
      assert KeepsRows(s, t, r, p, job);
    }
    forall q | q in t.requests ensures PhaseFits(t.requests[q], t.rows) {
      if q != r {
        FitsMoreRows(s.requests[q], s.rows, t.rows);
      }
    }
  }

  lemma FitsMoreRows(p: Phase, rows: multiset<Job>, more: multiset<Job>)
    requires PhaseFits(p, rows) && rows <= more
    ensures PhaseFits(p, more)
  {
  }

  /** What an insert does, id by id. */
  lemma InsertedIds(table: Table, batch: seq<Event>)
    ensures Distinct(Added(table, batch))
    ensures InsertRows(table, batch).Keys == table.Keys + Ids(batch)
    ensures Ids(Added(table, batch)) == Ids(batch) - table.Keys
  {
    hide *;
    InsertIsExact(table, batch);
    AddedIsNew(table, batch);
  }

  /** The parts of the balance that a move relies on. */
  lemma BalanceOf(s: Sys, r: Replica)
    requires Balanced(s) && r in s.requests
    ensures PhaseFits(s.requests[r], s.rows)
    ensures forall id :: s.wins[id] == s.purges[id] + if id in s.table then 1 else 0
  {
  }

  lemma InsertKeepsBalance(s: Sys, r: Replica)
    requires Balanced(s) && r in s.requests && s.requests[r].Posted?
    ensures Balanced(DoInsert(s, r))
  {
    BalanceOf(s, r);
    var t, batch := DoInsert(s, r), s.requests[r].batch;
    var added := Added(s.table, batch);
    hide Added, InsertRows, Ids, Distinct, Balanced;
    InsertedIds(s.table, batch);
    forall id ensures KeepsPublishes(s, t, r, Stored(added), id) {
    }
    forall job ensures KeepsRows(s, t, r, Stored(added), job) {
    }
    hide KeepsPublishes, KeepsRows;
    MoveKeepsBalance(s, t, r, Stored(added));
  }

  lemma ListKeepsBalance(s: Sys, r: Replica, ok: bool)
    requires Balanced(s) && r in s.requests && s.requests[r].Stored?
    ensures Balanced(DoList(s, r, ok))
  {
    var added := s.requests[r].added;
    BalanceOf(s, r);
    var t := DoList(s, r, ok);
    hide Distinct, Balanced;
    forall job | MayEnqueue(t.requests[r], job) ensures MayEnqueue(s.requests[r], job) {
    }
    hide Ids, Plan;
    MoveKeepsBalance(s, t, r, t.requests[r]);
  }

  lemma PublishKeepsBalance(s: Sys, r: Replica)
    requires Balanced(s) && r in s.requests && s.requests[r].Publishing?
    ensures Balanced(DoPublish(s, r))
  {
    BalanceOf(s, r);
    var t := DoPublish(s, r);
    HeadId(s.requests[r].queue);
    hide Ids, Balanced, Distinct, KeepsPublishes, KeepsRows;
    forall id ensures KeepsPublishes(s, t, r, t.requests[r], id) {
      HeadIsPublished(s, r, id);
    }
    forall job ensures KeepsRows(s, t, r, t.requests[r], job) {
      PublishKeepsRows(s, r, job);
    }
    MoveKeepsBalance(s, t, r, t.requests[r]);
  }

  lemma HeadIsPublished(s: Sys, r: Replica, id: EventId)
    requires r in s.requests && s.requests[r].Publishing? && Distinct(s.requests[r].queue)
    ensures KeepsPublishes(s, DoPublish(s, r), r, DoPublish(s, r).requests[r], id)
  {
    HeadId(s.requests[r].queue);
    hide Ids, Distinct;
  }

  lemma PublishKeepsRows(s: Sys, r: Replica, job: Job)
    requires r in s.requests && s.requests[r].Publishing?
    ensures KeepsRows(s, DoPublish(s, r), r, DoPublish(s, r).requests[r], job)
  {
  }

  lemma HeadId(queue: seq<Event>)
    requires Distinct(queue)
    ensures queue == [] ==> Ids(queue) == {}
    ensures queue != [] ==>
              Ids(queue) == Ids(queue[1..]) + {queue[0].id} && queue[0].id !in Ids(queue[1..]) && Distinct(queue[1..])
  {
    if queue != [] {
      assert queue == [queue[0]] + queue[1..];
    }
  }

  lemma EnqueueKeepsBalance(s: Sys, r: Replica, job: Job, ok: bool)
    requires Balanced(s) && r in s.requests && s.requests[r].Enqueueing? && job in s.requests[r].todo
    ensures Balanced(DoEnqueue(s, r, job, ok))
  {
    BalanceOf(s, r);
    var t := DoEnqueue(s, r, job, ok);
    hide Balanced;
    forall id ensures KeepsPublishes(s, t, r, t.requests[r], id) {
    }
    forall j ensures KeepsRows(s, t, r, t.requests[r], j) {
    }
    hide KeepsPublishes, KeepsRows;
    MoveKeepsBalance(s, t, r, t.requests[r]);
  }

  lemma BeginKeepsBalance(s: Sys, r: Replica, normalized: seq<Event>)
    requires Balanced(s) && r !in s.requests
    ensures Balanced(Do(s, Begin(r, normalized)))
  {
    UniqueIds(normalized);
    hide Pending, Claims, Ids, Unique, Distinct;
    MoveKeepsBalance(s, Do(s, Begin(r, normalized)), r, Posted(Unique(normalized)));
  }

  lemma CrashKeepsBalance(s: Sys, r: Replica)
    requires Balanced(s) && r in s.requests
    ensures Balanced(Do(s, Crash(r)))
  {
    assert Unpublished(Crashed) == {};
    hide Pending, Claims, Unpublished;
    MoveKeepsBalance(s, Do(s, Crash(r)), r, Crashed);
  }

  lemma PurgeKeepsBalance(s: Sys, id: EventId)
    requires Balanced(s)
    ensures Balanced(Do(s, Purge(id)))
  {
    hide Pending, Claims, PhaseFits;
  }

  lemma StepKeepsBalance(s: Sys, a: Action)
    requires Balanced(s)
    ensures Balanced(Do(s, a))
  {
    hide Balanced, DoInsert, DoList, DoPublish, DoEnqueue, Unpublished, Unique;
    match a
    case Begin(r, normalized) => if r !in s.requests { BeginKeepsBalance(s, r, normalized); }
    case Insert(r) => if r in s.requests && s.requests[r].Posted? { InsertKeepsBalance(s, r); }
    case ListWebhooks(r, ok) => if r in s.requests && s.requests[r].Stored? { ListKeepsBalance(s, r, ok); }
    case Publish(r) => if r in s.requests && s.requests[r].Publishing? { PublishKeepsBalance(s, r); }
    case Enqueue(r, job, ok) =>
      if r in s.requests && s.requests[r].Enqueueing? && job in s.requests[r].todo {
        EnqueueKeepsBalance(s, r, job, ok);
      }
    case Crash(r) => if r in s.requests { CrashKeepsBalance(s, r); }
    case Purge(id) => PurgeKeepsBalance(s, id);
    case _ => SameBooks(s, Do(s, a));
  }

  lemma SameBooks(s: Sys, t: Sys)
    requires Balanced(s) && t == s.(hooks := t.hooks)
    ensures Balanced(t)
  {
    hide Pending, Claims, PhaseFits;
  }

  lemma {:induction false} RunKeepsBalance(s: Sys, actions: seq<Action>)
    requires Balanced(s)
    ensures Balanced(Run(s, actions))
    decreases |actions|
  {
    hide Balanced, Do;
    if actions != [] {
      StepKeepsBalance(s, actions[0]);
      RunKeepsBalance(Do(s, actions[0]), actions[1..]);
    }
  }

  /** The books balance in every run, purges, crashes and webhook edits included. */
  lemma EveryRunBalances(actions: seq<Action>)
    ensures Balanced(Run(START, actions))
  {
    hide Run;
    RunKeepsBalance(START, actions);
  }

  /** An id that retention has not purged is published at most once and has at most one row per webhook. */
  lemma AtMostOnce(actions: seq<Action>, id: EventId)
    requires Run(START, actions).purges[id] == 0
    ensures var s := Run(START, actions);
            s.published[id] <= 1 && forall hook :: s.rows[Job(id, hook)] <= 1
  {
    EveryRunBalances(actions);
    hide Run, Pending, Claims, PhaseFits;
    var s := Run(START, actions);
    forall hook ensures s.rows[Job(id, hook)] <= 1 {
      assert s.rows[Job(id, hook)] + |Claims(s.requests, Job(id, hook))| <= s.wins[id];
    }
    assert s.published[id] + s.lost[id] + |Pending(s.requests, id)| == s.wins[id];
  }

  /**
   * A stored id that was not purged is published exactly once, unless the
   * replica that inserted it is still on its way or crashed first.
   */
  lemma PublishedOnceIff(actions: seq<Action>, id: EventId)
    requires Run(START, actions).purges[id] == 0 && id in Run(START, actions).table
    ensures var s := Run(START, actions);
            s.published[id] == 1 <==> s.lost[id] == 0 && Pending(s.requests, id) == {}
  {
    EveryRunBalances(actions);
    hide Run, Pending, Claims, PhaseFits;
    var s := Run(START, actions);
    assert s.published[id] + s.lost[id] + |Pending(s.requests, id)| == s.wins[id] == 1;
  }

  /** A finished request has exactly one row for every planned delivery whose insert did not fail. */
  lemma DeliveredOnce(actions: seq<Action>, r: Replica, job: Job)
    requires var s := Run(START, actions);
             && r in s.requests && s.requests[r].Enqueueing? && s.requests[r].todo == {}
             && job in s.requests[r].plan && job !in s.requests[r].failed && s.purges[job.id] == 0
    ensures Run(START, actions).rows[job] == 1
  {
    EveryRunBalances(actions);
    AtMostOnce(actions, job.id);
    hide Run;
    var s := Run(START, actions);
    assert PhaseFits(s.requests[r], s.rows);
    assert job == Job(job.id, job.hook);
  }

  /** Why the purge matters: a repeated event is won and fanned out again exactly when its row is gone. */
  lemma WinsAgainIff(s: Sys, r: Replica, e: Event)
    requires r !in s.requests
    ensures var t := Do(Do(s, Begin(r, [e])), Insert(r));
            t.requests[r] == Stored(if e.id in s.table then [] else [e]) &&
            t.wins[e.id] == s.wins[e.id] + if e.id in s.table then 0 else 1
  {
    hide Unique, Added, InsertRows, Ids;
    EmptyBatch(s.table);
    AppendEvent(s.table, [], e);
    PushEvent(s.table, [e]);
    assert [] + [e] == [e] && [e][..0] == [];
  }
}
