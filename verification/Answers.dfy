/** What callers read: every answer of every run, in terms of the stored rows and of the handlers' own answers. */
module Answers {
  import opened Text
  import opened Idempotency

  /** An answer that does not come from the store is the handler's own, or the refusal of a bad key. */
  predicate IsOwn(call: Call) {
    call.phase.Answered? && !call.phase.fromStore ==>
      if call.own.Some? then ShowsOwn(call.phase.reply, call.own.value)
      else call.cell.None? && call.phase.reply == Reply(400, Some("IDEMPOTENCY_KEY_INVALID"), false)
  }

  /** A row that is about to be stored is what the handler answered, and its status is a stable one. */
  predicate IsTheirs(call: Call) {
    call.phase.Ran? || call.phase.Inserted? ==>
      && call.own == Some(Outcome(call.phase.row.status, Some(call.phase.row.body)))
      && call.phase.row.status in {200, 201, 202, 204, 400, 409, 422}
  }

  /** A call that has not run its handler has no answer of its own. */
  predicate IsFresh(call: Call) {
    call.phase.Started? || call.phase.Missed? ==> call.own.None?
  }

  ghost predicate AllOwn(s: Sys) {
    forall c | c in s.calls :: IsOwn(s.calls[c]) && IsTheirs(s.calls[c]) && IsFresh(s.calls[c])
  }

  lemma StepKeepsOwn(s: Sys, a: Action)
    requires AllOwn(s)
    ensures AllOwn(Do(s, a))
  {
    hide NormalizeKey;
  }

  lemma {:induction false} RunKeepsOwn(s: Sys, actions: seq<Action>)
    requires AllOwn(s)
    ensures AllOwn(Run(s, actions))
    decreases |actions|
  {
    hide AllOwn, Do;
    if actions != [] {
      StepKeepsOwn(s, actions[0]);
      RunKeepsOwn(Do(s, actions[0]), actions[1..]);
    }
  }

  /** In every run a call not answered from the store carries its own handler's status and body. */
  lemma OwnAnswers(actions: seq<Action>, c: CallId)
    requires var s := Run(START, actions); c in s.calls && s.calls[c].phase.Answered? && !s.calls[c].phase.fromStore
    ensures var call := Run(START, actions).calls[c];
            if call.own.Some? then ShowsOwn(call.phase.reply, call.own.value)
            else call.phase.reply == Reply(400, Some("IDEMPOTENCY_KEY_INVALID"), false)
  {
    hide Run;
    RunKeepsOwn(START, actions);
  }

  /** Call `c` of the cell was answered from the store. */
  predicate Replays(s: Sys, c: CallId, cell: Cell) {
    c in s.calls && s.calls[c].cell == Some(cell) && s.calls[c].phase.Answered? && s.calls[c].phase.fromStore
  }

  /**
   * In every run a store answer carries the status and body of a row committed
   * for its cell, flagged as replayed exactly when that row is not what its
   * own handler answered; and every committed row is the stable answer of some
   * handler called for the cell.
   */
  lemma StoreAnswersAreRows(actions: seq<Action>, c: CallId, cell: Cell)
    requires Replays(Run(START, actions), c, cell)
    ensures var s := Run(START, actions);
            exists row | row in s.History(cell) ::
              Shows(s.calls[c].phase.reply, row.status, row.body,
                    s.calls[c].own != Some(Outcome(row.status, Some(row.body))))
    ensures var s := Run(START, actions);
            forall row | row in s.History(cell) ::
              && row.status in {200, 201, 202, 204, 400, 409, 422}
              && exists d :: d in s.calls && s.calls[d].cell == Some(cell) &&
                             s.calls[d].own == Some(Outcome(row.status, Some(row.body)))
  {
    EveryAnswerIsACommit(actions, cell);
    hide Run, Respond, Shows, Answer;
    var s := Run(START, actions);
    assert CallFits(s, cell, s.calls[c]);
    var row :| row in s.History(cell) &&
               s.calls[c].phase.reply == Respond(Answer(row), s.calls[c].own != Some(Answer(row)));
    RowIsShown(row, s.calls[c].own != Some(Answer(row)));
    forall r | r in s.History(cell)
      ensures r.status in {200, 201, 202, 204, 400, 409, 422}
      ensures exists d :: d in s.calls && s.calls[d].cell == Some(cell) &&
                          s.calls[d].own == Some(Outcome(r.status, Some(r.body)))
    {
      RowIsShown(r, true);
      assert IsCacheable(Answer(r)) && Produced(s, cell, r);
    }
  }

  /** While a cell was never purged, all its store answers have one status and one body, those of the stored row. */
  lemma OneStatusAndBody(actions: seq<Action>, cell: Cell, c: CallId, d: CallId)
    requires Run(START, actions).Purged(cell) == 0
    requires Replays(Run(START, actions), c, cell) && Replays(Run(START, actions), d, cell)
    ensures var s := Run(START, actions);
            var x, y := s.calls[c].phase.reply, s.calls[d].phase.reply;
            && x.status == y.status && x.body == y.body
            && cell in s.store && Shows(x, s.store[cell].status, s.store[cell].body, x.replayed)
  {
    AllAnswersAgree(actions, cell);
    hide Run, Respond, Answer, Shows;
    var row := Run(START, actions).store[cell];
    RowIsShown(row, true);
    RowIsShown(row, false);
    SameShown(Run(START, actions).calls[c].phase.reply, Run(START, actions).calls[d].phase.reply, row);
  }

  lemma SameShown(x: Reply, y: Reply, row: Row)
    requires Shows(x, row.status, row.body, x.replayed) && Shows(y, row.status, row.body, y.replayed)
    ensures x.status == y.status && x.body == y.body
  {
  }

  /**
   * A client that repeats a call once its row is committed reads that row's
   * status and body, flagged as replayed, as long as the row is not purged.
   */
  lemma RetriesReadTheRow(s: Sys, actions: seq<Action>, c: CallId, cell: Cell)
    requires cell in s.store && c !in s.calls && Purge(cell) !in actions
    ensures var t := Run(s, actions);
            c in t.calls && t.calls[c].cell == Some(cell) && t.calls[c].phase.Answered? ==>
              Shows(t.calls[c].phase.reply, s.store[cell].status, s.store[cell].body, true)
  {
    LateCallsNeverRun(s, actions, c, cell);
    RowIsShown(s.store[cell], true);
  }
}
