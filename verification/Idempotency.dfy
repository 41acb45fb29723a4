/**
 * The idempotency store: a first-writer-wins register per (scope, key),
 * under concurrent calls, failing statements and the retention purge.
 */
module Idempotency {
  import opened Text

  // ---------------------------------------------------------------- keys

  /** What String.prototype.trim removes. */
  predicate IsBlank(c: Unit) {
    0x09 <= c <= 0x0D || c == 0x20 || c == 0xA0 || c == 0x1680 || 0x2000 <= c <= 0x200A ||
    c == 0x2028 || c == 0x2029 || c == 0x202F || c == 0x205F || c == 0x3000 || c == 0xFEFF
  }

  const MAX_KEY_LENGTH := 255

  predicate Blank(s: Str) { forall i | 0 <= i < |s| :: IsBlank(s[i]) }

  predicate HasControl(s: Str) { exists i | 0 <= i < |s| :: s[i] <= 0x1F }

  function TrimStart(s: Str): Str { if s != [] && IsBlank(s[0]) then TrimStart(s[1..]) else s }

  function TrimEnd(s: Str): Str { if s != [] && IsBlank(s[|s| - 1]) then TrimEnd(s[..|s| - 1]) else s }

  /** Control characters are looked for before trimming. */
  function NormalizeKey(raw: Str): Option<Str> {
    var key := TrimEnd(TrimStart(raw));
    if HasControl(raw) || key == [] || |key| > MAX_KEY_LENGTH then None else Some(key)
  }

  /** A key that starts and ends with something visible. */
  predicate Solid(key: Str) { key != [] && !IsBlank(key[0]) && !IsBlank(key[|key| - 1]) }

  predicate Pads(raw: Str, left: Str, key: Str, right: Str) {
    raw == left + key + right && Blank(left) && Blank(right)
  }

  lemma {:induction false} TrimStartDrops(left: Str, s: Str)
    requires Blank(left)
    ensures TrimStart(left + s) == TrimStart(s)
  {
    if left == [] {
      assert left + s == s;
    } else {
      assert (left + s)[1..] == left[1..] + s;
      TrimStartDrops(left[1..], s);
    }
  }

  lemma {:induction false} TrimEndDrops(s: Str, right: Str)
    requires Blank(right)
    ensures TrimEnd(s + right) == TrimEnd(s)
  {
    if right == [] {
      assert s + right == s;
    } else {
      assert (s + right)[..|s + right| - 1] == s + right[..|right| - 1];
      TrimEndDrops(s, right[..|right| - 1]);
    }
  }

  lemma {:induction false} TrimStartSplits(s: Str) returns (left: Str)
    ensures s == left + TrimStart(s) && Blank(left)
    ensures TrimStart(s) != [] ==> !IsBlank(TrimStart(s)[0])
  {
    left := [];
    if s != [] && IsBlank(s[0]) {
      var rest := TrimStartSplits(s[1..]);
      left := [s[0]] + rest;
    }
  }

  lemma {:induction false} TrimEndSplits(s: Str) returns (right: Str)
    ensures s == TrimEnd(s) + right && Blank(right)
    ensures TrimEnd(s) != [] ==> !IsBlank(TrimEnd(s)[|TrimEnd(s)| - 1])
  {
    right := [];
    if s != [] && IsBlank(s[|s| - 1]) {
      var rest := TrimEndSplits(s[..|s| - 1]);
      right := rest + [s[|s| - 1]];
    }
  }

  /** Trimming finds a way to pad its result back to the input. */
  lemma TrimmedIsPadded(raw: Str)
    ensures var key := TrimEnd(TrimStart(raw));
            (exists left, right :: Pads(raw, left, key, right)) && (key != [] ==> Solid(key))
  {
    var left := TrimStartSplits(raw);
    var right := TrimEndSplits(TrimStart(raw));
    hide TrimStart, TrimEnd, Blank;
    var key := TrimEnd(TrimStart(raw));
    assert raw == left + key + right;
    assert Pads(raw, left, key, right);
    assert key != [] ==> TrimStart(raw)[0] == key[0];
  }

  lemma PaddedIsTrimmed(raw: Str, left: Str, key: Str, right: Str)
    requires Solid(key) && Pads(raw, left, key, right)
    ensures TrimEnd(TrimStart(raw)) == key
  {
    assert TrimStart(key + right) == key + right && TrimEnd(key) == key;
    assert raw == left + (key + right);
    hide TrimStart, TrimEnd, IsBlank;
    TrimStartDrops(left, key + right);
    TrimEndDrops(key, right);
  }

  /** The headers that hold a key: up to 255 units, solid at both ends, between blanks, no control characters. */
  lemma KeyIff(raw: Str, key: Str)
    ensures NormalizeKey(raw) == Some(key) <==>
            && !HasControl(raw) && Solid(key) && |key| <= MAX_KEY_LENGTH
            && exists left, right :: Pads(raw, left, key, right)
  {
    hide TrimStart, TrimEnd, Pads, HasControl;
    TrimmedIsPadded(raw);
    if Solid(key) && exists l, r :: Pads(raw, l, key, r) {
      var l, r :| Pads(raw, l, key, r);
      PaddedIsTrimmed(raw, l, key, r);
    }
  }

  // ---------------------------------------------------------------- answers

  datatype Cell = Cell(scope: string, key: Str)

  /** What a handler answers; `body` is its JSON text, `None` when JSON cannot represent it. */
  datatype Outcome = Outcome(status: int, body: Option<string>)

  /** A stored answer. */
  datatype Row = Row(status: int, body: string)

  datatype Reply = Reply(status: int, body: Option<string>, replayed: bool)

  const CACHEABLE_STATUSES := {200, 201, 202, 204, 400, 409, 422}
  const NULL_BODY_STATUSES := {101, 204, 205, 304}
  const KEY_INVALID := Reply(400, Some("IDEMPOTENCY_KEY_INVALID"), false)

  function Respond(o: Outcome, replayed: bool): Reply {
    var body := if o.body.Some? then o.body.value else "null";
    Reply(o.status, if o.status in NULL_BODY_STATUSES then None else Some(body), replayed)
  }

  function Answer(row: Row): Outcome { Outcome(row.status, Some(row.body)) }

  /** The reply carries the status and, where the status allows one, the body. */
  predicate Shows(reply: Reply, status: int, body: string, replayed: bool) {
    && reply.status == status && reply.replayed == replayed
    && reply.body == if status == 101 || status == 204 || status == 205 || status == 304 then None else Some(body)
  }

  /** The reply is the handler's own answer. */
  predicate ShowsOwn(reply: Reply, o: Outcome) {
    Shows(reply, o.status, if o.body.Some? then o.body.value else "null", false)
  }

  predicate IsCacheable(o: Outcome) { o.status in CACHEABLE_STATUSES && o.body.Some? }

  // ---------------------------------------------------------------- concurrent calls

  type CallId = nat

  datatype Phase =
    | Bare
    | Started
    | Missed
    | Ran(row: Row)
    | Inserted(row: Row)
    | Answered(reply: Reply, fromStore: bool)
    | Crashed

  /** `own` is what the call's own handler answered, once it has run. */
  datatype Call = Call(cell: Option<Cell>, phase: Phase, own: Option<Outcome>)

  /** `history` is every row ever committed for a cell, `purged` how many of them retention removed. */
  datatype Sys = Sys(
    store: map<Cell, Row>, calls: map<CallId, Call>, history: map<Cell, seq<Row>>, purged: map<Cell, nat>)
  {
    function History(cell: Cell): seq<Row> { if cell in history then history[cell] else [] }

    function Purged(cell: Cell): nat { if cell in purged then purged[cell] else 0 }

    function To(c: CallId, phase: Phase): Sys
      requires c in calls
    {
      this.(calls := calls[c := calls[c].(phase := phase)])
    }
  }

  const START := Sys(map[], map[], map[], map[])

  /** `lands`: the insert reaches the table. `reported`: the caller is told so (an error may follow a commit). */
  datatype Action =
    | Begin(c: CallId, scope: string, header: Option<Str>)
    | Lookup(c: CallId)
    | Exec(c: CallId, outcome: Outcome)
    | Insert(c: CallId, lands: bool, reported: bool)
    | Reread(c: CallId)
    | Crash(c: CallId)
    | Purge(cell: Cell)

  function Opened(scope: string, header: Option<Str>): Call {
    match header
    case None => Call(None, Bare, None)
    case Some(raw) =>
      match NormalizeKey(raw)
      case None => Call(None, Answered(KEY_INVALID, false), None)
      case Some(key) => Call(Some(Cell(scope, key)), Started, None)
  }

  function AfterExec(call: Call, outcome: Outcome): Call {
    var next := if call.phase.Bare? || !IsCacheable(outcome) then Answered(Respond(outcome, false), false)
                else Ran(Row(outcome.status, outcome.body.value));
    call.(phase := next, own := Some(outcome))
  }

  /** Insert if absent. */
  function Committed(s: Sys, cell: Cell, row: Row): Sys {
    if cell in s.store then s
    else s.(store := s.store[cell := row], history := s.history[cell := s.History(cell) + [row]])
  }

  function DoInsert(s: Sys, c: CallId, lands: bool, reported: bool): Sys
    requires c in s.calls && s.calls[c].cell.Some? && s.calls[c].phase.Ran?
  {
    var row := s.calls[c].phase.row;
    var t := if lands || reported then Committed(s, s.calls[c].cell.value, row) else s;
    t.To(c, if reported then Inserted(row) else Answered(Respond(Answer(row), false), false))
  }

  function DoReread(s: Sys, c: CallId): Sys
    requires c in s.calls && s.calls[c].cell.Some? && s.calls[c].phase.Inserted?
  {
    var cell, row := s.calls[c].cell.value, s.calls[c].phase.row;
    s.To(c, if cell in s.store then Answered(Respond(Answer(s.store[cell]), s.store[cell] != row), true)
            else Answered(Respond(Answer(row), false), false))
  }

  function DoPurge(s: Sys, cell: Cell): Sys {
    if cell !in s.store then s
    else s.(store := s.store - {cell}, purged := s.purged[cell := s.Purged(cell) + 1])
  }

  function DoLookup(s: Sys, c: CallId): Sys
    requires c in s.calls && s.calls[c].cell.Some?
  {
    var cell := s.calls[c].cell.value;
    s.To(c, if cell in s.store then Answered(Respond(Answer(s.store[cell]), true), true) else Missed)
  }

  function Do(s: Sys, a: Action): Sys {
    match a
    case Begin(c, scope, header) =>
      if c in s.calls then s else s.(calls := s.calls[c := Opened(scope, header)])
    case Lookup(c) =>
      if c in s.calls && s.calls[c].cell.Some? && s.calls[c].phase.Started? then DoLookup(s, c) else s
    case Exec(c, outcome) =>
      if c in s.calls && (s.calls[c].phase.Bare? || s.calls[c].phase.Missed?)
      then s.(calls := s.calls[c := AfterExec(s.calls[c], outcome)]) else s
    case Insert(c, lands, reported) =>
      if c in s.calls && s.calls[c].cell.Some? && s.calls[c].phase.Ran? then DoInsert(s, c, lands, reported) else s
    case Reread(c) =>
      if c in s.calls && s.calls[c].cell.Some? && s.calls[c].phase.Inserted? then DoReread(s, c) else s
    case Crash(c) =>
      if c in s.calls && !s.calls[c].phase.Answered? then s.To(c, Crashed) else s
    case Purge(cell) => DoPurge(s, cell)
  }

  function Run(s: Sys, actions: seq<Action>): Sys
    decreases |actions|
  {
    if actions == [] then s else Run(Do(s, actions[0]), actions[1..])
  }

  // ---------------------------------------------------------------- every store answer is a committed row

  /** Some call of the cell had its handler answer exactly this row. */
  ghost predicate Produced(s: Sys, cell: Cell, row: Row) {
    exists c :: c in s.calls && s.calls[c].cell == Some(cell) && s.calls[c].own == Some(Answer(row))
  }

  /** The reply repeats a committed row, flagged as replayed unless it is what the call's own handler answered. */
  predicate Repeats(history: seq<Row>, call: Call, reply: Reply) {
    exists row | row in history :: reply == Respond(Answer(row), call.own != Some(Answer(row)))
  }

  ghost predicate CallFits(s: Sys, cell: Cell, call: Call) {
    match call.phase
    case Bare => false
    case Started => call.own == None
    case Missed => call.own == None
    case Ran(row) => call.own == Some(Answer(row)) && IsCacheable(Answer(row))
    case Inserted(row) => call.own == Some(Answer(row)) && s.History(cell) != []
    case Answered(reply, fromStore) => fromStore ==> Repeats(s.History(cell), call, reply)
    case Crashed => true
  }

  ghost predicate Accounted(s: Sys, cell: Cell) {
    && |s.History(cell)| == s.Purged(cell) + (if cell in s.store then 1 else 0)
    && (cell in s.store ==> s.History(cell) != [] && s.store[cell] == s.History(cell)[|s.History(cell)| - 1])
    && (forall row | row in s.History(cell) :: IsCacheable(Answer(row)) && Produced(s, cell, row))
    && (forall c | c in s.calls && s.calls[c].cell == Some(cell) :: CallFits(s, cell, s.calls[c]))
  }

  /** A cell's account survives a change of one call that keeps the store, fits, and forgets no handler answer. */
  lemma CallKeepsAccount(s: Sys, c: CallId, call: Call, cell: Cell)
    requires Accounted(s, cell)
    requires c in s.calls ==> s.calls[c].cell == call.cell && (s.calls[c].own.Some? ==> call.own == s.calls[c].own)
    requires call.cell == Some(cell) ==> CallFits(s, cell, call)
    ensures Accounted(s.(calls := s.calls[c := call]), cell)
  {
    var t := s.(calls := s.calls[c := call]);
    forall row | row in t.History(cell) ensures Produced(t, cell, row) {
      var d :| d in s.calls && s.calls[d].cell == Some(cell) && s.calls[d].own == Some(Answer(row));
      assert t.calls[d].cell == Some(cell) && t.calls[d].own == Some(Answer(row));
    }
  }

  lemma CommitKeepsAccount(s: Sys, c: CallId, cell: Cell, row: Row, other: Cell)
    requires Accounted(s, other) && IsCacheable(Answer(row))
    requires c in s.calls && s.calls[c].cell == Some(cell) && s.calls[c].own == Some(Answer(row))
    ensures Accounted(Committed(s, cell, row), other)
    ensures cell == other ==> Committed(s, cell, row).History(cell) != []
  {
    var t := Committed(s, cell, row);
    forall r | r in t.History(other) ensures IsCacheable(Answer(r)) && Produced(t, other, r) {
      assert r in s.History(other) ==> Produced(s, other, r);
      if r in s.History(other) {
        var d :| d in s.calls && s.calls[d].cell == Some(other) && s.calls[d].own == Some(Answer(r));
        assert t.calls[d].own == Some(Answer(r));
      } else {
        assert t.calls[c].own == Some(Answer(r));
      }
    }
    assert s.History(other) <= t.History(other);
    forall d | d in t.calls && t.calls[d].cell == Some(other) ensures CallFits(t, other, t.calls[d]) {
      assert CallFits(s, other, s.calls[d]);
      forall r | r in s.History(other) ensures r in t.History(other) {
      }
    }
  }

  lemma InsertKeepsAccount(s: Sys, c: CallId, lands: bool, reported: bool, cell: Cell)
    requires Accounted(s, cell) && c in s.calls && s.calls[c].cell.Some? && s.calls[c].phase.Ran?
    requires Accounted(s, s.calls[c].cell.value)
    ensures Accounted(DoInsert(s, c, lands, reported), cell)
  {
    var row, own := s.calls[c].phase.row, s.calls[c].cell.value;
    assert CallFits(s, own, s.calls[c]);
    var t := if lands || reported then Committed(s, own, row) else s;
    CommitKeepsAccount(s, c, own, row, cell);
    hide Accounted, IsCacheable, Respond;
    CallKeepsAccount(t, c, DoInsert(s, c, lands, reported).calls[c], cell);
  }

  lemma RereadKeepsAccount(s: Sys, c: CallId, cell: Cell)
    requires Accounted(s, cell) && c in s.calls && s.calls[c].cell.Some? && s.calls[c].phase.Inserted?
    ensures Accounted(DoReread(s, c), cell)
  {
    hide IsCacheable, Respond;
    var call := DoReread(s, c).calls[c];
    if call.cell == Some(cell) && cell in s.store {
      var row := s.store[cell];
      assert CallFits(s, cell, s.calls[c]);
      assert row in s.History(cell) && call.phase.reply == Respond(Answer(row), call.own != Some(Answer(row)));
    }
    CallKeepsAccount(s, c, call, cell);
  }

  lemma LookupKeepsAccount(s: Sys, c: CallId, cell: Cell)
    requires Accounted(s, cell) && c in s.calls && s.calls[c].cell.Some? && s.calls[c].phase.Started?
    ensures Accounted(DoLookup(s, c), cell)
  {
    hide IsCacheable, Respond;
    var call := DoLookup(s, c).calls[c];
    if call.cell == Some(cell) {
      assert CallFits(s, cell, s.calls[c]);
      if cell in s.store {
        var row := s.store[cell];
        assert row in s.History(cell) && call.phase.reply == Respond(Answer(row), call.own != Some(Answer(row)));
      }
    }
    CallKeepsAccount(s, c, call, cell);
  }

  lemma PurgeKeepsAccount(s: Sys, purged: Cell, cell: Cell)
    requires Accounted(s, cell)
    ensures Accounted(DoPurge(s, purged), cell)
  {
    var t := DoPurge(s, purged);
    assert t.History(cell) == s.History(cell);
    forall row | row in t.History(cell) ensures Produced(t, cell, row) {
      assert Produced(s, cell, row);
    }
    forall c | c in t.calls && t.calls[c].cell == Some(cell) ensures CallFits(t, cell, t.calls[c]) {
      assert CallFits(s, cell, s.calls[c]);
    }
  }

  lemma ExecKeepsAccount(s: Sys, c: CallId, outcome: Outcome, cell: Cell)
    requires Accounted(s, cell) && c in s.calls && (s.calls[c].phase.Bare? || s.calls[c].phase.Missed?)
    ensures Accounted(Do(s, Exec(c, outcome)), cell)
  {
    assert s.calls[c].cell == Some(cell) ==> CallFits(s, cell, s.calls[c]);
    if s.calls[c].cell == Some(cell) || s.calls[c].own.None? {
      CallKeepsAccount(s, c, AfterExec(s.calls[c], outcome), cell);
    } else {
      OthersKeepAccount(s, c, AfterExec(s.calls[c], outcome), cell);
    }
  }

  /** A call of another cell, or of none, does not matter. */
  lemma OthersKeepAccount(s: Sys, c: CallId, call: Call, cell: Cell)
    requires Accounted(s, cell) && call.cell != Some(cell) && (c in s.calls ==> s.calls[c].cell != Some(cell))
    ensures Accounted(s.(calls := s.calls[c := call]), cell)
  {
    var t := s.(calls := s.calls[c := call]);
    forall row | row in t.History(cell) ensures Produced(t, cell, row) {
      var d :| d in s.calls && s.calls[d].cell == Some(cell) && s.calls[d].own == Some(Answer(row));
      assert t.calls[d].cell == Some(cell) && t.calls[d].own == Some(Answer(row));
    }
  }

  lemma StepKeepsAccount(s: Sys, a: Action, cell: Cell)
    requires forall any :: Accounted(s, any)
    ensures Accounted(Do(s, a), cell)
  {
    assert Accounted(s, cell);
    hide Accounted, Respond, NormalizeKey, DoInsert, DoReread, DoPurge, DoLookup, AfterExec;
    match a
    case Begin(c, scope, header) =>
      OpenedFits(s, c, scope, header, cell);
      CallKeepsAccount(s, c, if c in s.calls then s.calls[c] else Opened(scope, header), cell);
    case Lookup(c) =>
      if c in s.calls && s.calls[c].cell.Some? && s.calls[c].phase.Started? { LookupKeepsAccount(s, c, cell); }
    case Exec(c, outcome) =>
      if c in s.calls && (s.calls[c].phase.Bare? || s.calls[c].phase.Missed?) { ExecKeepsAccount(s, c, outcome, cell); }
    case Insert(c, lands, reported) =>
      if c in s.calls && s.calls[c].cell.Some? && s.calls[c].phase.Ran? {
        InsertKeepsAccount(s, c, lands, reported, cell);
      }
    case Reread(c) =>
      if c in s.calls && s.calls[c].cell.Some? && s.calls[c].phase.Inserted? { RereadKeepsAccount(s, c, cell); }
    case Crash(c) =>
      if c in s.calls { CallKeepsAccount(s, c, s.calls[c].(phase := Crashed), cell); }
    case Purge(purged) => PurgeKeepsAccount(s, purged, cell);
  }

  lemma OpenedFits(s: Sys, c: CallId, scope: string, header: Option<Str>, cell: Cell)
    requires Accounted(s, cell)
    ensures var call := if c in s.calls then s.calls[c] else Opened(scope, header);
            call.cell == Some(cell) ==> CallFits(s, cell, call)
  {
    hide NormalizeKey;
  }

  lemma {:induction false} RunKeepsAccount(s: Sys, actions: seq<Action>)
    requires forall cell :: Accounted(s, cell)
    ensures forall cell :: Accounted(Run(s, actions), cell)
    decreases |actions|
  {
    if actions != [] {
      var t := Do(s, actions[0]);
      forall cell ensures Accounted(t, cell) {
        StepKeepsAccount(s, actions[0], cell);
      }
      hide Accounted, Do;
      RunKeepsAccount(t, actions[1..]);
    }
  }

  /**
   * In every run, purges and crashes included: rows committed for a cell
   * exceed its purges by one exactly while one is stored; only cacheable
   * answers of the cell's own handlers are ever committed; and a call answered
   * from the store repeats one of them, flagged as replayed exactly when it is
   * not what its own handler said.
   */
  lemma EveryAnswerIsACommit(actions: seq<Action>, cell: Cell)
    ensures Accounted(Run(START, actions), cell)
  {
    forall any ensures Accounted(START, any) {
      assert START.History(any) == [];
    }
    RunKeepsAccount(START, actions);
  }

  /**
   * First writer wins. As long as the cell was never purged all its store
   * answers have one status and body, those of the stored row, and a call
   * whose insert went through finds a row to answer from.
   */
  lemma AllAnswersAgree(actions: seq<Action>, cell: Cell)
    requires Run(START, actions).Purged(cell) == 0
    ensures var s := Run(START, actions);
            forall c | c in s.calls && s.calls[c].cell == Some(cell) ::
              && (s.calls[c].phase.Inserted? ==> cell in s.store)
              && (s.calls[c].phase.Answered? && s.calls[c].phase.fromStore ==>
                    && cell in s.store
                    && s.calls[c].phase.reply ==
                       Respond(Answer(s.store[cell]), s.calls[c].own != Some(Answer(s.store[cell]))))
  {
    var s := Run(START, actions);
    EveryAnswerIsACommit(actions, cell);
    forall c | c in s.calls && s.calls[c].cell == Some(cell) ensures CallFits(s, cell, s.calls[c]) {
    }
    assert |s.History(cell)| <= 1;
  }

  // ---------------------------------------------------------------- late calls

  /** What a call that begins after the commit can be. */
  ghost predicate Late(s: Sys, c: CallId, cell: Cell, row: Row) {
    && cell in s.store && s.store[cell] == row
    && (c in s.calls && s.calls[c].cell == Some(cell) ==>
          && s.calls[c].own == None
          && (s.calls[c].phase.Started? || s.calls[c].phase.Crashed? ||
              s.calls[c].phase == Answered(Respond(Answer(row), true), true)))
  }

  lemma StepKeepsLate(s: Sys, a: Action, c: CallId, cell: Cell, row: Row)
    requires Late(s, c, cell, row) && a != Purge(cell)
    ensures Late(Do(s, a), c, cell, row)
  {
    hide NormalizeKey, Respond;
  }

  lemma {:induction false} RunKeepsLate(s: Sys, actions: seq<Action>, c: CallId, cell: Cell, row: Row)
    requires Late(s, c, cell, row) && Purge(cell) !in actions
    ensures Late(Run(s, actions), c, cell, row)
    decreases |actions|
  {
    hide Late, Do;
    if actions != [] {
      StepKeepsLate(s, actions[0], c, cell, row);
      RunKeepsLate(Do(s, actions[0]), actions[1..], c, cell, row);
    }
  }

  /**
   * A call that begins once the row is committed never runs its handler and,
   * if it is answered, gets that row flagged as replayed, for as long as the
   * row is not purged.
   */
  lemma LateCallsNeverRun(s: Sys, actions: seq<Action>, c: CallId, cell: Cell)
    requires cell in s.store && c !in s.calls && Purge(cell) !in actions
    ensures var t := Run(s, actions);
            && cell in t.store && t.store[cell] == s.store[cell]
            && (c in t.calls && t.calls[c].cell == Some(cell) ==>
                  && t.calls[c].own == None && !t.calls[c].phase.Missed?
                  && (t.calls[c].phase.Answered? ==>
                        t.calls[c].phase == Answered(Respond(Answer(s.store[cell]), true), true)))
  {
    RunKeepsLate(s, actions, c, cell, s.store[cell]);
  }

  // ---------------------------------------------------------------- the store

  /**
   * An undisturbed call, from the rows `before` it to those `after` it. A
   * stored row is replayed and the handler not run; otherwise, the key being
   * usable, the call answers what its handler does, and a stable answer that
   * JSON can represent is stored if its insert commits.
   */
  predicate IsWhole(before: map<Cell, Row>, scope: string, header: Option<Str>, outcome: Outcome, commits: bool,
                    reply: Reply, ran: bool, after: map<Cell, Row>)
  {
    if header.None? then ran && ShowsOwn(reply, outcome) && after == before
    else if NormalizeKey(header.value).None? then
      !ran && after == before && reply == Reply(400, Some("IDEMPOTENCY_KEY_INVALID"), false)
    else
      var cell := Cell(scope, NormalizeKey(header.value).value);
      if cell in before then
        !ran && after == before && Shows(reply, before[cell].status, before[cell].body, true)
      else
        && ran && ShowsOwn(reply, outcome)
        && after == if commits && outcome.body.Some? && outcome.status in {200, 201, 202, 204, 400, 409, 422}
                    then before[cell := Row(outcome.status, outcome.body.value)] else before
  }

  class IdempotencyStore {
    var rows: map<Cell, Row>

    constructor ()
      ensures rows == map[]
    {
      rows := map[];
    }

    /** The table, with no call in flight. */
    ghost function Before(): Sys
      reads this
    {
      Sys(rows, map[], map[], map[])
    }

    method Find(cell: Cell) returns (row: Option<Row>)
      ensures row == if cell in rows then Some(rows[cell]) else None
    {
      row := if cell in rows then Some(rows[cell]) else None;
    }

    method InsertIfAbsent(cell: Cell, row: Row, lands: bool)
      modifies this
      ensures rows == if lands && cell !in old(rows) then old(rows)[cell := row] else old(rows)
    {
      if lands && cell !in rows {
        rows := rows[cell := row];
      }
    }

    /**
     * One call, undisturbed: what call 0 does in the step system above.
     * `outcome` is what the handler answers if it is run.
     */
    method WithIdempotency(scope: string, header: Option<Str>, outcome: Outcome, lands: bool, reported: bool)
      returns (reply: Reply, ran: bool)
      modifies this
      ensures var t := Run(old(Before()), WholeCall(scope, header, outcome, lands, reported));
              && rows == t.store && 0 in t.calls
              && t.calls[0].phase.Answered? && t.calls[0].phase.reply == reply && t.calls[0].own.Some? == ran
      ensures IsWhole(old(rows), scope, header, outcome, lands || reported, reply, ran, rows)
    {
      hide NormalizeKey, Respond, Shows, ShowsOwn, Run, WholeCall;
      ran := true;
      OwnIsShown(outcome);
      if header.None? {
        BareCall(Before(), scope, outcome, lands, reported);
        reply := Respond(outcome, false);
        return;
      }
      var key := NormalizeKey(header.value);
      if key.None? {
        RefusedCall(Before(), scope, header.value, outcome, lands, reported);
        return KEY_INVALID, false;
      }
      var cell := Cell(scope, key.value);
      var cached := Find(cell);
      if cached.Some? {
        RowIsShown(cached.value, true);
        ReplayedCall(Before(), scope, header.value, outcome, lands, reported);
        return Respond(Answer(cached.value), true), false;
      }
      MissedCall(Before(), scope, header.value, outcome, lands, reported);
      if !IsCacheable(outcome) {
        reply := Respond(outcome, false);
        return;
      }
      var row := Row(outcome.status, outcome.body.value);
      assert Answer(row) == outcome;
      InsertIfAbsent(cell, row, lands || reported);
      if !reported {
        reply := Respond(Answer(row), false);
        return;
      }
      var winner := Find(cell);
      reply := if winner.Some? then Respond(Answer(winner.value), winner.value != row) else Respond(Answer(row), false);
    }
  }

  /** Every step of a call, of which those off its path do nothing. */
  function WholeCall(scope: string, header: Option<Str>, outcome: Outcome, lands: bool, reported: bool): seq<Action> {
    [Begin(0, scope, header), Lookup(0), Exec(0, outcome), Insert(0, lands, reported), Reread(0)]
  }

  lemma OwnIsShown(o: Outcome)
    ensures ShowsOwn(Respond(o, false), o)
  {
  }

  lemma RowIsShown(row: Row, replayed: bool)
    ensures Shows(Respond(Answer(row), replayed), row.status, row.body, replayed)
    ensures Answer(row) == Outcome(row.status, Some(row.body))
  {
  }

  /** Without a header the handler runs and nothing is stored. */
  lemma BareCall(s: Sys, scope: string, outcome: Outcome, lands: bool, reported: bool)
    requires s.calls == map[]
    ensures var t := Run(s, WholeCall(scope, None, outcome, lands, reported));
            && t.store == s.store && 0 in t.calls
            && t.calls[0] == Call(None, Answered(Respond(outcome, false), false), Some(outcome))
  {
    hide Run, Respond;
    RunFive(s, Begin(0, scope, None), Lookup(0), Exec(0, outcome), Insert(0, lands, reported), Reread(0));
    var s1 := Do(s, Begin(0, scope, None));
    assert Do(s1, Lookup(0)) == s1;
  }

  /** A bad key is refused. */
  lemma RefusedCall(s: Sys, scope: string, raw: Str, outcome: Outcome, lands: bool, reported: bool)
    requires s.calls == map[] && NormalizeKey(raw).None?
    ensures var t := Run(s, WholeCall(scope, Some(raw), outcome, lands, reported));
            t.store == s.store && 0 in t.calls && t.calls[0] == Call(None, Answered(KEY_INVALID, false), None)
  {
    hide Run, Respond, NormalizeKey;
    RunFive(s, Begin(0, scope, Some(raw)), Lookup(0), Exec(0, outcome), Insert(0, lands, reported), Reread(0));
    var s1 := Do(s, Begin(0, scope, Some(raw)));
    assert Do(s1, Lookup(0)) == s1 && Do(s1, Exec(0, outcome)) == s1 && Do(s1, Insert(0, lands, reported)) == s1;
  }

  /** A stored row is replayed. */
  lemma ReplayedCall(s: Sys, scope: string, raw: Str, outcome: Outcome, lands: bool, reported: bool)
    requires s.calls == map[] && NormalizeKey(raw).Some? && Cell(scope, NormalizeKey(raw).value) in s.store
    ensures var t := Run(s, WholeCall(scope, Some(raw), outcome, lands, reported));
            var cell := Cell(scope, NormalizeKey(raw).value);
            && t.store == s.store && 0 in t.calls
            && t.calls[0] == Call(Some(cell), Answered(Respond(Answer(s.store[cell]), true), true), None)
  {
    hide Run, Respond, NormalizeKey, Answer;
    RunFive(s, Begin(0, scope, Some(raw)), Lookup(0), Exec(0, outcome), Insert(0, lands, reported), Reread(0));
    var s2, cell := Do(Do(s, Begin(0, scope, Some(raw))), Lookup(0)), Cell(scope, NormalizeKey(raw).value);
    assert s2.calls[0] == Call(Some(cell), Answered(Respond(Answer(s.store[cell]), true), true), None);
    assert Do(s2, Exec(0, outcome)) == s2 && Do(s2, Insert(0, lands, reported)) == s2 && Do(s2, Reread(0)) == s2;
  }

  /** On a miss the handler runs, and what can be stored is, if its insert commits. */
  lemma MissedCall(s: Sys, scope: string, raw: Str, outcome: Outcome, lands: bool, reported: bool)
    requires s.calls == map[] && NormalizeKey(raw).Some? && Cell(scope, NormalizeKey(raw).value) !in s.store
    ensures var t := Run(s, WholeCall(scope, Some(raw), outcome, lands, reported));
            var cell := Cell(scope, NormalizeKey(raw).value);
            && 0 in t.calls && t.calls[0].own == Some(outcome)
            && t.calls[0].phase.Answered? && t.calls[0].phase.reply == Respond(outcome, false)
            && t.store == if IsCacheable(outcome) && (lands || reported)
                          then s.store[cell := Row(outcome.status, outcome.body.value)] else s.store
  {
    hide Run, Respond, NormalizeKey;
    RunFive(s, Begin(0, scope, Some(raw)), Lookup(0), Exec(0, outcome), Insert(0, lands, reported), Reread(0));
    var s2 := Do(Do(s, Begin(0, scope, Some(raw))), Lookup(0));
    var cell := Cell(scope, NormalizeKey(raw).value);
    assert s2.store == s.store && s2.calls[0] == Call(Some(cell), Missed, None);
    AfterMiss(s2, cell, outcome, lands, reported);
  }

  lemma AfterMiss(s: Sys, cell: Cell, outcome: Outcome, lands: bool, reported: bool)
    requires cell !in s.store && 0 in s.calls && s.calls[0] == Call(Some(cell), Missed, None)
    ensures var t := Do(Do(Do(s, Exec(0, outcome)), Insert(0, lands, reported)), Reread(0));
            && 0 in t.calls && t.calls[0].own == Some(outcome)
            && t.calls[0].phase.Answered? && t.calls[0].phase.reply == Respond(outcome, false)
            && t.store == if IsCacheable(outcome) && (lands || reported)
                          then s.store[cell := Row(outcome.status, outcome.body.value)] else s.store
  {
    hide Respond;
    var s1 := Do(s, Exec(0, outcome));
    if IsCacheable(outcome) {
      assert Answer(s1.calls[0].phase.row) == outcome;
      var s2 := Do(s1, Insert(0, lands, reported));
      assert !reported ==> Do(s2, Reread(0)) == s2;
    } else {
      assert Do(s1, Insert(0, lands, reported)) == s1 && Do(s1, Reread(0)) == s1;
    }
  }

  lemma RunFive(s: Sys, a: Action, b: Action, c: Action, d: Action, e: Action)
    ensures Run(s, [a, b, c, d, e]) == Do(Do(Do(Do(Do(s, a), b), c), d), e)
  {
    hide Do;
    assert [a, b, c, d, e][1..] == [b, c, d, e] && [b, c, d, e][1..] == [c, d, e];
    assert [c, d, e][1..] == [d, e] && [d, e][1..] == [e] && [e][1..] == [];
    var s1 := Do(s, a);
    var s2 := Do(s1, b);
    var s3 := Do(s2, c);
    assert Run(s3, [d, e]) == Run(Do(s3, d), [e]) == Run(Do(Do(s3, d), e), []);
    assert Run(s1, [b, c, d, e]) == Run(s2, [c, d, e]) == Run(s3, [d, e]);
  }
}
