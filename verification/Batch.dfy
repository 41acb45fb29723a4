/** One batch posted to the event sink: what is dropped, reported, deduplicated, stored and counted. */
module Batch {
  import opened Text
  import opened CanonicalJson
  import opened JsonProblem

  type EventId = string

  /**
   * A normalised event. `column` names the first text column its value would
   * not fit, `size` is the length of its payload as JSON text.
   */
  datatype Event = Event(
    id: EventId, kind: string, payload: Json, grants: Option<seq<Str>>, column: Option<string>, size: nat)

  datatype Cause = Unstorable(problem: Problem) | ColumnLimit

  datatype ItemProblem = ItemProblem(field: string, cause: Cause) {
    predicate IsTooDeep() { cause == Unstorable(TooDeep) }
  }

  // ---------------------------------------------------------------- one item

  function GrantsJson(grants: seq<Str>): Json { Arr(seq(|grants|, i requires 0 <= i < |grants| => Text(grants[i]))) }

  /** A too-deep payload comes first, whatever else is wrong with the item. */
  ghost function FirstProblem(e: Event): Option<ItemProblem> {
    var payload := Verdict(e.payload);
    var grants := if e.grants.Some? then Verdict(GrantsJson(e.grants.value)) else None;
    if payload == Some(TooDeep) then Some(ItemProblem("payload", Unstorable(TooDeep)))
    else if e.column.Some? then Some(ItemProblem(e.column.value, ColumnLimit))
    else if grants.Some? then Some(ItemProblem("grants", Unstorable(grants.value)))
    else if payload.Some? then Some(ItemProblem("payload", Unstorable(payload.value)))
    else None
  }

  method CheckItem(e: Event) returns (problem: Option<ItemProblem>)
    ensures problem == FirstProblem(e)
  {
    var payload := JsonValueProblem(e.payload);
    if payload == Some(TooDeep) {
      return Some(ItemProblem("payload", Unstorable(TooDeep)));
    }
    if e.column.Some? {
      return Some(ItemProblem(e.column.value, ColumnLimit));
    }
    if e.grants.Some? {
      var grants := JsonValueProblem(GrantsJson(e.grants.value));
      if grants.Some? {
        return Some(ItemProblem("grants", Unstorable(grants.value)));
      }
    }
    problem := if payload.Some? then Some(ItemProblem("payload", Unstorable(payload.value))) else None;
  }

  /** A list of strings is one level deep. */
  lemma GrantsVerdict(grants: seq<Str>)
    ensures !Deep(GrantsJson(grants), 1)
    ensures Has(GrantsJson(grants), ContainsNul) <==> exists i | 0 <= i < |grants| :: ContainsNul(grants[i])
    ensures Has(GrantsJson(grants), ContainsLone) <==> exists i | 0 <= i < |grants| :: ContainsLone(grants[i])
  {
    var v := GrantsJson(grants);
    assert forall i | 0 <= i < |grants| :: v.items[i] == Text(grants[i]);
    assert forall i | 0 <= i < |grants| :: Has(v.items[i], ContainsNul) <==> ContainsNul(grants[i]);
    assert forall i | 0 <= i < |grants| :: Has(v.items[i], ContainsLone) <==> ContainsLone(grants[i]);
  }

  /**
   * Exactly which items are ingested, and that the size of a payload is
   * measured exactly when it is shallow enough for recursive code.
   */
  lemma IngestedIff(e: Event)
    ensures FirstProblem(e).None? <==>
            && !Deep(e.payload, 1) && !Has(e.payload, ContainsNul) && !Has(e.payload, ContainsLone)
            && (e.grants.Some? ==>
                  forall i | 0 <= i < |e.grants.value| ::
                    !ContainsNul(e.grants.value[i]) && !ContainsLone(e.grants.value[i]))
            && e.column.None?
    ensures FirstProblem(e).Some? && FirstProblem(e).value.IsTooDeep() <==> Deep(e.payload, 1)
  {
    if e.grants.Some? {
      GrantsVerdict(e.grants.value);
    }
    hide Deep, Has, ContainsNul, ContainsLone;
  }

  // ---------------------------------------------------------------- the loops, as functions

  datatype Item = NotObject | Object(event: Event)

  datatype Candidate = Candidate(index: nat, event: Event, problem: Option<ItemProblem>)

  datatype ItemError = ItemError(index: nat, problem: ItemProblem)

  const MAX_BATCH_EVENTS := 500
  const MAX_EVENT_PAYLOAD_BYTES := 65536
  const MAX_REPORTED_ERRORS := 20

  ghost function Candidates(items: seq<Item>): seq<Candidate> {
    if items == [] then []
    else
      var n := |items| - 1;
      match items[n]
      case NotObject => Candidates(items[..n])
      case Object(e) => Candidates(items[..n]) + [Candidate(n, e, FirstProblem(e))]
  }

  predicate Oversize(c: Candidate) {
    !(c.problem.Some? && c.problem.value.IsTooDeep()) && c.event.size > MAX_EVENT_PAYLOAD_BYTES
  }

  predicate IsFirstOversize(cs: seq<Candidate>, c: Candidate) {
    exists i :: 0 <= i < |cs| && c == cs[i] && Oversize(c) && forall j | 0 <= j < i :: !Oversize(cs[j])
  }

  function Passed(cs: seq<Candidate>): seq<Event> {
    if cs == [] then []
    else
      var c := cs[|cs| - 1];
      Passed(cs[..|cs| - 1]) + if c.problem.None? then [c.event] else []
  }

  function Failed(cs: seq<Candidate>): seq<ItemError> {
    if cs == [] then []
    else
      var c := cs[|cs| - 1];
      Failed(cs[..|cs| - 1]) + if c.problem.Some? then [ItemError(c.index, c.problem.value)] else []
  }

  function Ids(es: seq<Event>): set<EventId> { set e | e in es :: e.id }

  /** The first occurrence of each id. */
  function Unique(es: seq<Event>): seq<Event> {
    if es == [] then []
    else
      var before, e := es[..|es| - 1], es[|es| - 1];
      Unique(before) + if e.id in Ids(before) then [] else [e]
  }

  type Table = map<EventId, Event>

  /** A multi-row insert that skips ids already there. */
  function InsertRows(table: Table, es: seq<Event>): Table {
    if es == [] then table
    else
      var before, e := InsertRows(table, es[..|es| - 1]), es[|es| - 1];
      if e.id in before then before else before[e.id := e]
  }

  /** The rows the insert returns: those neither stored nor earlier in the list. */
  function Added(table: Table, es: seq<Event>): seq<Event> {
    if es == [] then []
    else
      var before, e := es[..|es| - 1], es[|es| - 1];
      Added(table, before) + if e.id in table || e.id in Ids(before) then [] else [e]
  }

  // ---------------------------------------------------------------- accounting

  ghost predicate Bad(item: Item) { item.Object? && FirstProblem(item.event).Some? }

  /** `errors` names every refused object by its place in the caller's array, in order, with its first problem. */
  ghost predicate Reports(errors: seq<ItemError>, items: seq<Item>) {
    && (forall k, l | 0 <= k < l < |errors| :: errors[k].index < errors[l].index)
    && (forall k | 0 <= k < |errors| ::
          && errors[k].index < |items| && items[errors[k].index].Object?
          && FirstProblem(items[errors[k].index].event) == Some(errors[k].problem))
    && (forall i: nat | i < |items| && Bad(items[i]) :: exists k :: 0 <= k < |errors| && errors[k].index == i)
  }

  lemma ReportsGrow(errors: seq<ItemError>, items: seq<Item>)
    requires items != [] && Reports(errors, items[..|items| - 1])
    ensures !Bad(items[|items| - 1]) ==> Reports(errors, items)
    ensures Bad(items[|items| - 1]) ==>
              Reports(errors + [ItemError(|items| - 1, FirstProblem(items[|items| - 1].event).value)], items)
  {
    hide FirstProblem;
    var n := |items| - 1;
    if Bad(items[n]) {
      var more := errors + [ItemError(n, FirstProblem(items[n].event).value)];
      assert more[|errors|].index == n;
      forall i: nat | i < n && Bad(items[i]) ensures exists k :: 0 <= k < |more| && more[k].index == i {
        assert items[..n][i] == items[i];
        var k :| 0 <= k < |errors| && errors[k].index == i;
        assert more[k] == errors[k];
      }
    } else {
      forall i: nat | i < n && Bad(items[i]) ensures exists k :: 0 <= k < |errors| && errors[k].index == i {
        assert items[..n][i] == items[i];
      }
    }
  }

  lemma {:induction false} ErrorsAreExact(items: seq<Item>)
    ensures Reports(Failed(Candidates(items)), items)
  {
    if items != [] {
      ErrorsAreExact(items[..|items| - 1]);
      BadIs(items[|items| - 1]);
      PushCandidate(items);
      ReportsGrow(Failed(Candidates(items[..|items| - 1])), items);
      hide Reports, Failed, Candidates, Bad, FirstProblem;
    }
  }

  lemma BadIs(item: Item)
    ensures Bad(item) <==> item.Object? && FirstProblem(item.event).Some?
  {
  }

  lemma PushCandidate(items: seq<Item>)
    requires items != []
    ensures var n := |items| - 1;
            var before, after := Candidates(items[..n]), Candidates(items);
            match items[n]
            case NotObject => after == before
            case Object(e) =>
              && after == before + [Candidate(n, e, FirstProblem(e))]
              && Passed(after) == Passed(before) + (if FirstProblem(e).None? then [e] else [])
              && Failed(after) ==
                 (if FirstProblem(e).Some? then Failed(before) + [ItemError(n, FirstProblem(e).value)]
                  else Failed(before))
  {
    var n := |items| - 1;
    if items[n].Object? {
      assert Candidates(items)[..|Candidates(items)| - 1] == Candidates(items[..n]);
    }
  }

  ghost function Objects(items: seq<Item>): set<nat> { set i: nat | i < |items| && items[i].Object? }

  ghost function Good(items: seq<Item>): set<nat> { set i: nat | i < |items| && items[i].Object? && !Bad(items[i]) }

  /** Every object item is either ingested or dropped; entries that are no objects count as neither. */
  lemma {:induction false} ItemsAreCounted(items: seq<Item>)
    ensures var cs := Candidates(items);
            |Passed(cs)| == |Good(items)| && |Passed(cs)| + |Failed(cs)| == |Objects(items)|
  {
    if items == [] {
      assert Objects(items) == {} && Good(items) == {};
    } else {
      var n := |items| - 1;
      ItemsAreCounted(items[..n]);
      PushCandidate(items);
      PushObject(items);
      hide Candidates, Passed, Failed, FirstProblem, Objects, Good;
    }
  }

  lemma PushObject(items: seq<Item>)
    requires items != []
    ensures var n := |items| - 1;
            && |Objects(items)| == |Objects(items[..n])| + (if items[n].Object? then 1 else 0)
            && |Good(items)| == |Good(items[..n])| + (if items[n].Object? && !Bad(items[n]) then 1 else 0)
  {
    hide Bad;
    var n := |items| - 1;
    assert Objects(items) == Objects(items[..n]) + if items[n].Object? then {n} else {};
    assert Good(items) == Good(items[..n]) + if items[n].Object? && !Bad(items[n]) then {n} else {};
  }

  /** No earlier event of the batch has the id. */
  predicate IsFirst(es: seq<Event>, i: nat)
    requires i < |es|
  {
    forall j | 0 <= j < i :: es[j].id != es[i].id
  }

  lemma EmptyBatch(table: Table)
    ensures Ids([]) == {} && Unique([]) == [] && InsertRows(table, []) == table && Added(table, []) == []
    ensures Repeats(table, []) == {}
  {
  }

  /** Every function of a batch, one event further. */
  lemma PushEvent(table: Table, es: seq<Event>)
    requires es != []
    ensures var n := |es| - 1;
            var before, e := es[..n], es[n];
            && Ids(es) == Ids(before) + {e.id}
            && Unique(es) == (if e.id in Ids(before) then Unique(before) else Unique(before) + [e])
            && InsertRows(table, es) ==
               (if e.id in InsertRows(table, before) then InsertRows(table, before)
                else InsertRows(table, before)[e.id := e])
            && Added(table, es) ==
               (if e.id in table || e.id in Ids(before) then Added(table, before) else Added(table, before) + [e])
            && (IsFirst(es, n) <==> e.id !in Ids(before))
            && (forall i: nat | i < n :: IsFirst(es, i) <==> IsFirst(before, i))
  {
    hide IsFirst, Ids;
    PushFirst(es);
    var n := |es| - 1;
    assert Unique(es[..n]) + [] == Unique(es[..n]);
    assert Added(table, es[..n]) + [] == Added(table, es[..n]);
  }

  lemma PushFirst(es: seq<Event>)
    requires es != []
    ensures var n := |es| - 1;
            var before, e := es[..n], es[n];
            && Ids(es) == Ids(before) + {e.id}
            && (IsFirst(es, n) <==> e.id !in Ids(before))
            && (forall i: nat | i < n :: IsFirst(es, i) <==> IsFirst(before, i))
  {
    var n := |es| - 1;
    assert es == es[..n] + [es[n]];
  }

  lemma AppendEvent(table: Table, es: seq<Event>, e: Event)
    ensures Ids(es + [e]) == Ids(es) + {e.id}
    ensures InsertRows(table, es + [e]) ==
            if e.id in InsertRows(table, es) then InsertRows(table, es) else InsertRows(table, es)[e.id := e]
    ensures Added(table, es + [e]) ==
            if e.id in table || e.id in Ids(es) then Added(table, es) else Added(table, es) + [e]
  {
    PushEvent(table, es + [e]);
    hide Ids, InsertRows, Added;
    assert (es + [e])[..|es|] == es;
  }

  /** Deduplication keeps exactly the first occurrences, in order. */
  lemma {:induction false} UniqueIsFirsts(es: seq<Event>) returns (at: seq<nat>)
    ensures |at| == |Unique(es)|
    ensures forall k | 0 <= k < |at| :: at[k] < |es| && IsFirst(es, at[k]) && Unique(es)[k] == es[at[k]]
    ensures forall k, l | 0 <= k < l < |at| :: at[k] < at[l]
    ensures forall i: nat | i < |es| && IsFirst(es, i) :: i in at
  {
    hide Unique, InsertRows, Added, IsFirst, Ids;
    EmptyBatch(map[]);
    at := [];
    if es != [] {
      var n := |es| - 1;
      var shorter := UniqueIsFirsts(es[..n]);
      PushEvent(map[], es);
      at := if es[n].id !in Ids(es[..n]) then shorter + [n] else shorter;
    }
  }

  /** Ids stay distinct, and none is lost. */
  lemma {:induction false} UniqueIds(es: seq<Event>)
    ensures Ids(Unique(es)) == Ids(es)
    ensures Distinct(Unique(es))
  {
    hide Unique, InsertRows, IsFirst, Ids, Added;
    EmptyBatch(map[]);
    if es != [] {
      var n := |es| - 1;
      UniqueIds(es[..n]);
      PushEvent(map[], es);
      AppendEvent(map[], Unique(es[..n]), es[n]);
      IdsHold(Unique(es[..n]));
    }
  }

  lemma IdsHold(es: seq<Event>)
    ensures forall k | 0 <= k < |es| :: es[k].id in Ids(es)
  {
  }

  predicate Distinct(es: seq<Event>) { forall k, l | 0 <= k < l < |es| :: es[k].id != es[l].id }

  /** The table after an insert: old rows untouched, every new id with its first event. */
  lemma {:induction false} InsertIsExact(table: Table, es: seq<Event>)
    ensures InsertRows(table, es).Keys == table.Keys + Ids(es)
    ensures forall id | id in table :: InsertRows(table, es)[id] == table[id]
    ensures forall i: nat | i < |es| && IsFirst(es, i) && es[i].id !in table :: InsertRows(table, es)[es[i].id] == es[i]
  {
    hide Unique, InsertRows, IsFirst, Ids, Added;
    EmptyBatch(table);
    if es != [] {
      var n := |es| - 1;
      InsertIsExact(table, es[..n]);
      PushEvent(table, es);
      IdsHold(es[..n]);
      var before := InsertRows(table, es[..n]);
      forall i: nat | i < |es| && IsFirst(es, i) && es[i].id !in table
        ensures InsertRows(table, es)[es[i].id] == es[i]
      {
        if i < n {
          assert es[..n][i] == es[i] && before[es[i].id] == es[i];
        }
      }
    }
  }

  /** Deduplicating first does not change what is stored. */
  lemma {:induction false} DedupeThenInsert(table: Table, es: seq<Event>)
    ensures InsertRows(table, Unique(es)) == InsertRows(table, es)
  {
    hide Unique, InsertRows, IsFirst, Ids, Added;
    EmptyBatch(table);
    if es != [] {
      var n := |es| - 1;
      DedupeThenInsert(table, es[..n]);
      InsertIsExact(table, es[..n]);
      PushEvent(table, es);
      AppendEvent(table, Unique(es[..n]), es[n]);
    }
  }

  /** Places whose event was stored before the batch, or earlier in it. */
  ghost function Repeats(table: Table, es: seq<Event>): set<nat> {
    set i: nat | i < |es| && (es[i].id in table || !IsFirst(es, i))
  }

  /** What is not newly inserted is a repeat, event for event. */
  lemma {:induction false} DuplicatesAreRepeats(table: Table, es: seq<Event>)
    ensures |Added(table, Unique(es))| + |Repeats(table, es)| == |es|
  {
    hide Unique, Added, Repeats, Ids, InsertRows, IsFirst;
    EmptyBatch(table);
    if es != [] {
      DuplicatesAreRepeats(table, es[..|es| - 1]);
      PushAdded(table, es);
      PushRepeat(table, es);
    }
  }

  /** The events added are those whose ids the table lacked, one each. */
  lemma {:induction false} AddedIsMissing(table: Table, es: seq<Event>)
    ensures Ids(Added(table, Unique(es))) == Ids(es) - table.Keys
    ensures |Added(table, Unique(es))| == |Ids(es) - table.Keys|
  {
    hide Unique, Added, Repeats, Ids, InsertRows, IsFirst;
    EmptyBatch(table);
    if es != [] {
      AddedIsMissing(table, es[..|es| - 1]);
      PushAdded(table, es);
      PushMissing(table, es);
    }
  }

  lemma PushMissing(table: Table, es: seq<Event>)
    requires es != []
    ensures var before, after := Ids(es[..|es| - 1]) - table.Keys, Ids(es) - table.Keys;
            var id := es[|es| - 1].id;
            var first := id !in table && id !in Ids(es[..|es| - 1]);
            && after == before + (if first then {id} else {})
            && |after| == |before| + if first then 1 else 0
  {
    hide *;
    PushIds(es);
    MissingGrows(Ids(es[..|es| - 1]), table.Keys, es[|es| - 1].id);
  }

  lemma PushIds(es: seq<Event>)
    requires es != []
    ensures Ids(es) == Ids(es[..|es| - 1]) + {es[|es| - 1].id}
  {
    assert es == es[..|es| - 1] + [es[|es| - 1]];
  }

  lemma MissingGrows(ids: set<EventId>, stored: set<EventId>, id: EventId)
    ensures ids + {id} - stored == (ids - stored) + if id !in stored && id !in ids then {id} else {}
    ensures |ids + {id} - stored| == |ids - stored| + if id !in stored && id !in ids then 1 else 0
  {
    var missing := ids - stored;
    if id !in stored && id !in ids {
      assert ids + {id} - stored == missing + {id};
    } else {
      assert ids + {id} - stored == missing;
    }
  }

  lemma PushRepeat(table: Table, es: seq<Event>)
    requires es != []
    ensures var n := |es| - 1;
            var repeats := es[n].id in table || es[n].id in Ids(es[..n]);
            |Repeats(table, es)| == |Repeats(table, es[..n])| + if repeats then 1 else 0
  {
    hide Ids, IsFirst, Unique, InsertRows, Added;
    var n := |es| - 1;
    PushEvent(table, es);
    var repeats := es[n].id in table || es[n].id in Ids(es[..n]);
    assert Repeats(table, es) == Repeats(table, es[..n]) + if repeats then {n} else {};
  }

  lemma PushAdded(table: Table, es: seq<Event>)
    requires es != []
    ensures var n := |es| - 1;
            var before, after := Added(table, Unique(es[..n])), Added(table, Unique(es));
            var first := es[n].id !in table && es[n].id !in Ids(es[..n]);
            && after == (if first then before + [es[n]] else before)
            && Ids(after) == Ids(before) + (if first then {es[n].id} else {})
  {
    hide Unique, Added, Ids, IsFirst, InsertRows;
    var n := |es| - 1;
    PushEvent(table, es);
    UniqueIds(es[..n]);
    AppendEvent(table, Unique(es[..n]), es[n]);
    AppendEvent(table, Added(table, Unique(es[..n])), es[n]);
  }

  /** The rows added are the ids the table lacked, one each, as they are now stored. */
  lemma {:induction false} AddedIsNew(table: Table, es: seq<Event>)
    ensures Distinct(Added(table, es)) && Ids(Added(table, es)) == Ids(es) - table.Keys
    ensures forall e | e in Added(table, es) :: e.id in InsertRows(table, es) && InsertRows(table, es)[e.id] == e
  {
    hide Unique, Added, Ids, IsFirst, InsertRows;
    EmptyBatch(table);
    if es != [] {
      var n := |es| - 1;
      AddedIsNew(table, es[..n]);
      PushEvent(table, es);
      InsertIsExact(table, es[..n]);
      AppendEvent(table, Added(table, es[..n]), es[n]);
      IdsHold(Added(table, es[..n]));
    }
  }

  /** `passed` are the events of the good entries, those at the places `at`, in the caller's order. */
  ghost predicate Picks(at: seq<nat>, passed: seq<Event>, items: seq<Item>) {
    && |at| == |passed|
    && (forall k | 0 <= k < |at| :: at[k] < |items| && items[at[k]] == Object(passed[k]) && !Bad(items[at[k]]))
    && (forall k, l | 0 <= k < l < |at| :: at[k] < at[l])
    && (forall i: nat | i < |items| && items[i].Object? && !Bad(items[i]) :: i in at)
  }

  lemma PicksGrow(at: seq<nat>, passed: seq<Event>, items: seq<Item>)
    requires items != [] && Picks(at, passed, items[..|items| - 1])
    ensures var n := |items| - 1;
            if items[n].Object? && !Bad(items[n]) then Picks(at + [n], passed + [items[n].event], items)
            else Picks(at, passed, items)
  {
    hide Bad;
    var n := |items| - 1;
    assert forall i: nat | i < n :: items[..n][i] == items[i];
  }

  lemma NothingPicked()
    ensures Picks([], Passed(Candidates([])), [])
  {
  }

  /** What passes is picked from the caller's entries: the good ones, all of them, in order. */
  lemma {:induction false} PassedIsExact(items: seq<Item>) returns (at: seq<nat>)
    ensures Picks(at, Passed(Candidates(items)), items)
  {
    hide Candidates, Passed, Failed, Bad, FirstProblem, Picks;
    at := [];
    if items == [] {
      NothingPicked();
    } else {
      var n := |items| - 1;
      at := PassedIsExact(items[..n]);
      BadIs(items[n]);
      PushCandidate(items);
      PicksGrow(at, Passed(Candidates(items[..n])), items);
      if items[n].Object? && !Bad(items[n]) {
        at := at + [n];
      } else {
        assert Passed(Candidates(items[..n])) + [] == Passed(Candidates(items[..n]));
      }
    }
  }

  /** An entry whose payload is measured and over the cap. */
  ghost predicate IsLarge(item: Item) { item.Object? && !Deep(item.event.payload, 1) && item.event.size > 65536 }

  ghost predicate IsFirstLarge(items: seq<Item>, i: nat) {
    i < |items| && IsLarge(items[i]) && forall j: nat | j < i :: !IsLarge(items[j])
  }

  /** None of the entries is too large, or the first that is one is the first oversize candidate's. */
  ghost predicate FirstsAgree(cs: seq<Candidate>, items: seq<Item>) {
    && ((forall c | c in cs :: !Oversize(c)) <==> forall i: nat | i < |items| :: !IsLarge(items[i]))
    && forall c | IsFirstOversize(cs, c) :: exists i: nat :: IsFirstLarge(items, i) && items[i] == Object(c.event)
  }

  lemma OversizeIsLarge(n: nat, e: Event)
    ensures Oversize(Candidate(n, e, FirstProblem(e))) <==> IsLarge(Object(e))
  {
    IngestedIff(e);
    hide FirstProblem, Deep;
  }

  lemma FirstsStay(cs: seq<Candidate>, items: seq<Item>)
    requires items != [] && FirstsAgree(cs, items[..|items| - 1]) && !IsLarge(items[|items| - 1])
    ensures FirstsAgree(cs, items)
  {
    hide IsLarge, Oversize, IsFirstOversize;
    var n := |items| - 1;
    assert forall i: nat | i < n :: items[..n][i] == items[i];
    forall i: nat | IsFirstLarge(items[..n], i) ensures IsFirstLarge(items, i) && items[..n][i] == items[i] {
    }
  }

  lemma FirstsGrow(cs: seq<Candidate>, c: Candidate, items: seq<Item>)
    requires items != [] && FirstsAgree(cs, items[..|items| - 1]) && items[|items| - 1] == Object(c.event)
    requires Oversize(c) <==> IsLarge(items[|items| - 1])
    ensures FirstsAgree(cs + [c], items)
  {
    hide IsLarge, Oversize;
    var n := |items| - 1;
    assert forall i: nat | i < n :: items[..n][i] == items[i];
    forall d | IsFirstOversize(cs + [c], d)
      ensures exists i: nat :: IsFirstLarge(items, i) && items[i] == Object(d.event)
    {
      if IsFirstOversize(cs, d) {
        var i: nat :| IsFirstLarge(items[..n], i) && items[..n][i] == Object(d.event);
        assert IsFirstLarge(items, i);
      } else {
        FirstIsLast(cs, c, d);
        assert IsFirstLarge(items, n);
      }
    }
    assert forall d :: d in cs + [c] <==> d in cs || d == c;
  }

  lemma FirstIsLast(cs: seq<Candidate>, c: Candidate, d: Candidate)
    requires IsFirstOversize(cs + [c], d) && !IsFirstOversize(cs, d)
    ensures d == c && Oversize(c) && forall x | x in cs :: !Oversize(x)
  {
    hide Oversize;
    var all := cs + [c];
    assert forall j | 0 <= j < |cs| :: all[j] == cs[j];
    var k :| 0 <= k < |all| && d == all[k] && Oversize(d) && forall j | 0 <= j < k :: !Oversize(all[j]);
  }

  /** The whole batch is refused for the first entry that is too large, if any. */
  lemma {:induction false} FirstOversizeIs(items: seq<Item>)
    ensures FirstsAgree(Candidates(items), items)
  {
    if items != [] {
      var n := |items| - 1;
      FirstOversizeIs(items[..n]);
      PushCandidate(items);
      if items[n].Object? {
        OversizeIsLarge(n, items[n].event);
      }
      NotLarge();
      hide Candidates, Passed, Failed, FirstProblem, IsLarge, Oversize, FirstsAgree;
      if items[n].Object? {
        FirstsGrow(Candidates(items[..n]), Candidate(n, items[n].event, FirstProblem(items[n].event)), items);
      } else {
        FirstsStay(Candidates(items), items);
      }
    }
  }

  lemma NotLarge()
    ensures !IsLarge(NotObject)
  {
  }

  // ---------------------------------------------------------------- the request

  datatype EventsField = Absent | NotArray | Items(items: seq<Item>)

  datatype Body = Primitive | List(items: seq<Item>) | Wrapper(events: EventsField)

  datatype Reply =
    | BodyInvalid
    | TooMany(got: nat)
    | TooLarge(size: nat, kind: string)
    | Ingested(ingested: nat, dropped: nat, errors: seq<ItemError>, inserted: nat, duplicates: nat)

  /** `None` for an `events` that is no array; a primitive, `null` or missing list is the empty batch. */
  function ItemsOf(body: Body): Option<seq<Item>> {
    match body
    case Primitive => Some([])
    case List(items) => Some(items)
    case Wrapper(Absent) => Some([])
    case Wrapper(NotArray) => None
    case Wrapper(Items(items)) => Some(items)
  }

  /** The body holds these entries; a primitive, `null` or missing list holds none. */
  predicate Carries(body: Body, items: seq<Item>) {
    || body == List(items) || body == Wrapper(Items(items))
    || (items == [] && (body == Primitive || body == Wrapper(Absent)))
  }

  /** The first twenty, at most, of a list that names the refused entries. */
  ghost predicate FirstErrors(errors: seq<ItemError>, dropped: nat, items: seq<Item>) {
    exists all :: Reports(all, items) && |all| == dropped && errors == all[..if dropped < 20 then dropped else 20]
  }

  /** The reply to a body with these entries, and what it leaves in the table. */
  ghost predicate Answers(reply: Reply, items: seq<Item>, before: Table, after: Table, added: seq<Event>) {
    match reply
    case BodyInvalid => false
    case TooMany(got) => got == |items| > 500
    case TooLarge(size, kind) =>
      |items| <= 500 &&
      exists i: nat :: IsFirstLarge(items, i) && size == items[i].event.size && kind == items[i].event.kind
    case Ingested(ingested, dropped, errors, inserted, duplicates) =>
      var passed := Passed(Candidates(items));
      && |items| <= 500 && (forall i: nat | i < |items| :: !IsLarge(items[i]))
      && ingested == |Good(items)| && ingested + dropped == |Objects(items)| && FirstErrors(errors, dropped, items)
      && after == InsertRows(before, passed) && added == Added(before, Unique(passed))
      && inserted == |Ids(passed) - before.Keys| && duplicates == |Repeats(before, passed)|
  }

  lemma CarriesItems(body: Body)
    ensures ItemsOf(body).None? <==> body == Wrapper(NotArray)
    ensures forall items :: Carries(body, items) <==> ItemsOf(body) == Some(items)
  {
  }

  lemma TooManyAnswers(items: seq<Item>, before: Table)
    requires |items| > 500
    ensures Answers(TooMany(|items|), items, before, before, [])
  {
  }

  lemma RefusalAnswers(items: seq<Item>, c: Candidate, before: Table)
    requires |items| <= 500 && IsFirstOversize(Candidates(items), c)
    ensures Answers(TooLarge(c.event.size, c.event.kind), items, before, before, [])
  {
    FirstOversizeIs(items);
    hide Candidates, IsFirstOversize, IsFirstLarge, IsLarge;
  }

  lemma IngestAnswers(items: seq<Item>, before: Table)
    requires |items| <= 500 && forall c | c in Candidates(items) :: !Oversize(c)
    ensures var cs := Candidates(items);
            var passed, failed := Passed(cs), Failed(cs);
            Answers(
              Ingested(|passed|, |failed|, failed[..Least(20, |failed|)], |Ids(passed) - before.Keys|,
                       |Repeats(before, passed)|),
              items, before, InsertRows(before, passed), Added(before, Unique(passed)))
  {
    FirstOversizeIs(items);
    ErrorsAreExact(items);
    ItemsAreCounted(items);
    hide Candidates, Oversize, IsLarge, IsFirstLarge, Passed, Failed, Reports, Objects, Good, Ids, Unique, InsertRows,
         Added, Repeats;
    var failed := Failed(Candidates(items));
    assert FirstErrors(failed[..Least(20, |failed|)], |failed|, items);
  }

  lemma DedupedCounts(table: Table, es: seq<Event>)
    ensures InsertRows(table, Unique(es)) == InsertRows(table, es)
    ensures var added := Added(table, Unique(es));
            |added| == |Ids(es) - table.Keys| && |added| + |Repeats(table, es)| == |es|
  {
    DedupeThenInsert(table, es);
    DuplicatesAreRepeats(table, es);
    AddedIsMissing(table, es);
  }

  class EventSink {
    var events: Table

    constructor ()
      ensures events == map[]
    {
      events := map[];
    }

    /** One insert statement, row by row, and the rows it wrote: one for each id that appeared in the table. */
    method IngestEvents(records: seq<Event>) returns (added: seq<Event>)
      modifies this
      ensures events == InsertRows(old(events), records) && added == Added(old(events), records)
      ensures Distinct(added) && Ids(added) == events.Keys - old(events).Keys
      ensures events.Keys == old(events).Keys + Ids(records)
      ensures forall id | id in old(events) :: events[id] == old(events)[id]
      ensures forall e | e in added :: e in records && events[e.id] == e
    {
      hide Unique, Added, Ids, IsFirst, InsertRows;
      added := [];
      var i := 0;
      EmptyBatch(events);
      while i < |records|
        invariant 0 <= i <= |records|
        invariant events == InsertRows(old(events), records[..i]) && added == Added(old(events), records[..i])
        invariant forall e | e in added :: e in records
      {
        PushEvent(old(events), records[..i + 1]);
        assert records[..i + 1][..i] == records[..i];
        InsertIsExact(old(events), records[..i]);
        if records[i].id !in events {
          events := events[records[i].id := records[i]];
          added := added + [records[i]];
        }
        i := i + 1;
      }
      assert records[..i] == records;
      InsertIsExact(old(events), records);
      AddedIsNew(old(events), records);
    }

    /** Refused as a whole without writing anything, or stored, counted and reported item by item. */
    method Post(body: Body) returns (reply: Reply, added: seq<Event>)
      modifies this
      ensures !reply.Ingested? ==> events == old(events) && added == []
      ensures reply.BodyInvalid? <==> body == Wrapper(NotArray)
      ensures forall items | Carries(body, items) :: Answers(reply, items, old(events), events, added)
    {
      hide Carries, Answers, ItemsOf, Candidates, Passed, Failed, Unique, InsertRows, Added, Ids, Oversize,
           IsFirstOversize, Repeats, Distinct;
      added := [];
      CarriesItems(body);
      if ItemsOf(body).None? {
        return BodyInvalid, [];
      }
      var items := ItemsOf(body).value;
      if |items| > MAX_BATCH_EVENTS {
        TooManyAnswers(items, events);
        return TooMany(|items|), [];
      }
      var candidates := CollectCandidates(items);
      var oversize := FindOversize(candidates);
      if oversize.Some? {
        RefusalAnswers(items, oversize.value, events);
        return TooLarge(oversize.value.event.size, oversize.value.event.kind), [];
      }
      IngestAnswers(items, events);
      var normalized, errors, dropped := Validate(candidates);
      var unique := Dedupe(normalized);
      DedupedCounts(events, normalized);
      added := IngestEvents(unique);
      var inserted := |added|;
      reply := Ingested(|normalized|, dropped, errors, inserted, |normalized| - inserted);
    }
  }

  function Least(a: nat, b: nat): nat { if a <= b then a else b }

  method CollectCandidates(items: seq<Item>) returns (candidates: seq<Candidate>)
    ensures candidates == Candidates(items)
  {
    hide FirstProblem;
    candidates := [];
    var index := 0;
    while index < |items|
      invariant 0 <= index <= |items|
      invariant candidates == Candidates(items[..index])
    {
      PushCandidate(items[..index + 1]);
      assert items[..index + 1][..index] == items[..index];
      match items[index] {
        case NotObject =>
        case Object(e) =>
          var problem := CheckItem(e);
          candidates := candidates + [Candidate(index, e, problem)];
      }
      index := index + 1;
    }
    assert items[..index] == items;
  }

  method FindOversize(cs: seq<Candidate>) returns (first: Option<Candidate>)
    ensures first.None? <==> forall c | c in cs :: !Oversize(c)
    ensures first.Some? ==> IsFirstOversize(cs, first.value)
  {
    var i := 0;
    while i < |cs|
      invariant 0 <= i <= |cs|
      invariant forall j | 0 <= j < i :: !Oversize(cs[j])
    {
      if Oversize(cs[i]) {
        return Some(cs[i]);
      }
      i := i + 1;
    }
    return None;
  }

  method Validate(cs: seq<Candidate>) returns (normalized: seq<Event>, errors: seq<ItemError>, dropped: nat)
    ensures normalized == Passed(cs) && dropped == |Failed(cs)|
    ensures errors == Failed(cs)[..Least(MAX_REPORTED_ERRORS, |Failed(cs)|)]
  {
    normalized, errors, dropped := [], [], 0;
    var i := 0;
    while i < |cs|
      invariant 0 <= i <= |cs|
      invariant normalized == Passed(cs[..i]) && dropped == |Failed(cs[..i])|
      invariant errors == Failed(cs[..i])[..Least(MAX_REPORTED_ERRORS, dropped)]
    {
      assert cs[..i + 1][..i] == cs[..i];
      if cs[i].problem.Some? {
        dropped := dropped + 1;
        if |errors| < MAX_REPORTED_ERRORS {
          errors := errors + [ItemError(cs[i].index, cs[i].problem.value)];
        }
      } else {
        normalized := normalized + [cs[i].event];
      }
      i := i + 1;
    }
    assert cs[..i] == cs;
  }

  method Dedupe(es: seq<Event>) returns (unique: seq<Event>)
    ensures unique == Unique(es)
  {
    unique := [];
    var seen: set<EventId> := {};
    var i := 0;
    while i < |es|
      invariant 0 <= i <= |es|
      invariant seen == Ids(es[..i]) && unique == Unique(es[..i])
    {
      assert es[..i + 1][..i] == es[..i];
      assert Ids(es[..i + 1]) == Ids(es[..i]) + {es[i].id};
      if es[i].id !in seen {
        seen := seen + {es[i].id};
        unique := unique + [es[i]];
      }
      i := i + 1;
    }
    assert es[..i] == es;
  }
}
