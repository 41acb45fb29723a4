/** Runs of the outbox, from an empty table, that show why `Settlement` asks what it asks. */
module Disorder {
  import opened Text
  import opened Outbox
  import opened Settlement

  const HOOK: WebhookId := "hook"
  const D: DeliveryId := "delivery"
  const SIBLING: DeliveryId := "sibling"

  /** One enabled webhook, no delivery yet, every worker idle. */
  const EMPTY := Start(map[HOOK := true])

  /** An attempt up to the breaker's decision, and up to its claim. */
  function Beginning(w: Worker, d: DeliveryId, admitted: bool): seq<Action> {
    [Load(w, d)] + [CheckWebhook(w, admitted)]
  }

  function Claiming(w: Worker, d: DeliveryId): seq<Action> { Beginning(w, d, true) + [Claim(w)] }

  function Answering(w: Worker, answer: Answer): seq<Action> { [Post(w, answer), WriteAnswer(w, 0)] }

  predicate RowIs(s: Sys, row: Row) { D in s.rows && s.rows[D] == row }

  // ---------------------------------------------------------------- runs in pieces

  lemma {:induction false} RunAppend(s: Sys, a: seq<Action>, b: seq<Action>, budget: int, d: DeliveryId)
    ensures Run(s, a + b, budget) == Run(Run(s, a, budget), b, budget)
    ensures LateStarts(s, a + b, budget, d) == LateStarts(s, a, budget, d) + LateStarts(Run(s, a, budget), b, budget, d)
    decreases |a|
  {
    hide Do, StartsLate;
    if a == [] {
      assert a + b == b;
    } else {
      assert (a + b)[1..] == a[1..] + b;
      RunAppend(Do(s, a[0], budget), a[1..], b, budget, d);
    }
  }

  lemma {:induction false} NoneStartLate(s: Sys, actions: seq<Action>, budget: int, d: DeliveryId)
    requires forall a | a in actions :: !(a.Load? && a.d == d)
    ensures LateStarts(s, actions, budget, d) == 0
    decreases |actions|
  {
    if actions != [] {
      assert actions[0] in actions;
      hide Do;
      NoneStartLate(Do(s, actions[0], budget), actions[1..], budget, d);
    }
  }

  /** From `s` to `t` only worker `w` moved, to `pc`, and the row of `d` became `row`. */
  ghost predicate Moved(s: Sys, t: Sys, w: Worker, pc: Pc, d: DeliveryId, row: Row) {
    && t.At(w) == pc && (forall v: Worker | v != w :: t.At(v) == s.At(v))
    && t.rows == s.rows[d := row] && t.active == s.active && t.crashes == s.crashes
  }

  /** A step of worker `w` that neither starts an attempt on `D` late nor leaves its place unknown. */
  lemma Begins(s: Sys, w: Worker, d: DeliveryId, admitted: bool, budget: int)
    requires s.At(w).Idle? && d in s.rows && !s.rows[d].status.Delivered?
    requires s.rows[d].webhook in s.active && s.active[s.rows[d].webhook]
    ensures var t := Run(s, Beginning(w, d, admitted), budget);
            Moved(s, t, w, if admitted then Admitted(d, s.rows[d]) else Rejected(d), d, s.rows[d])
    ensures LateStarts(s, Beginning(w, d, admitted), budget, D) == Count(StartsLate(s, Load(w, d), D))
  {
    var s1 := Do(s, Load(w, d), budget);
    assert Moved(s, s1, w, Loaded(d, s.rows[d]), d, s.rows[d]);
    assert Moved(s1, Do(s1, CheckWebhook(w, admitted), budget), w,
                 if admitted then Admitted(d, s.rows[d]) else Rejected(d), d, s.rows[d]);
    hide Do, StartsLate;
    RunCons(s, Load(w, d), [CheckWebhook(w, admitted)], budget);
    RunOne(s1, CheckWebhook(w, admitted), budget);
    NoneStartLate(s1, [CheckWebhook(w, admitted)], budget, D);
    assert Beginning(w, d, admitted)[1..] == [CheckWebhook(w, admitted)];
  }

  lemma Claims(s: Sys, w: Worker, d: DeliveryId, budget: int)
    requires s.At(w).Idle? && d in s.rows && s.rows[d].status.Pending?
    requires s.rows[d].webhook in s.active && s.active[s.rows[d].webhook]
    ensures var t := Run(s, Claiming(w, d), budget); var n := s.rows[d].attempts + 1;
            Moved(s, t, w, Claimed(d, n), d, s.rows[d].(attempts := n))
    ensures LateStarts(s, Claiming(w, d), budget, D) == Count(StartsLate(s, Load(w, d), D))
  {
    hide Do, StartsLate, Beginning;
    Begins(s, w, d, true, budget);
    var s1 := Run(s, Beginning(w, d, true), budget);
    RunAppend(s, Beginning(w, d, true), [Claim(w)], budget, D);
    RunOne(s1, Claim(w), budget);
    WinsClaim(s1, w, d, budget);
    NoneStartLate(s1, [Claim(w)], budget, D);
  }

  lemma WinsClaim(s: Sys, w: Worker, d: DeliveryId, budget: int)
    requires d in s.rows && s.At(w) == Admitted(d, s.rows[d]) && s.rows[d].status.Pending?
    ensures var n := s.rows[d].attempts + 1;
            Moved(s, Do(s, Claim(w), budget), w, Claimed(d, n), d, s.rows[d].(attempts := n))
  {
  }

  lemma Answers(s: Sys, w: Worker, d: DeliveryId, n: nat, answer: Answer, budget: int)
    requires s.At(w) == Claimed(d, n) && d in s.rows && !answer.Gone? && n > 0
    ensures Moved(s, Run(s, Answering(w, answer), budget), w, Idle, d,
                  Overwrite(s.rows[d], Outcome(n, answer, budget, 0)))
    ensures LateStarts(s, Answering(w, answer), budget, D) == 0
  {
    NoneStartLate(s, Answering(w, answer), budget, D);
    var s1 := Do(s, Post(w, answer), budget);
    assert Moved(s, s1, w, Answered(d, n, answer), d, s.rows[d]);
    Writes(s1, w, d, n, answer, 0, budget);
    hide Do, BackoffMs;
    RunTwo(s, Post(w, answer), WriteAnswer(w, 0), budget);
  }

  lemma Writes(s: Sys, w: Worker, d: DeliveryId, n: nat, answer: Answer, now: int, budget: int)
    requires s.At(w) == Answered(d, n, answer) && d in s.rows && !answer.Gone? && n > 0
    ensures Moved(s, Do(s, WriteAnswer(w, now), budget), w, Idle, d,
                  Overwrite(s.rows[d], Outcome(n, answer, budget, now)))
  {
    hide BackoffMs, SweepRows;
  }

  lemma IsRejected(s: Sys, w: Worker, d: DeliveryId, retryAt: int, budget: int)
    requires s.At(w) == Rejected(d) && d in s.rows
    ensures Moved(s, Run(s, [WriteRejected(w, retryAt)], budget), w, Idle, d,
                  Overwrite(s.rows[d], (Pending, Some(retryAt))))
    ensures LateStarts(s, [WriteRejected(w, retryAt)], budget, D) == 0
  {
    RunOne(s, WriteRejected(w, retryAt), budget);
    NoneStartLate(s, [WriteRejected(w, retryAt)], budget, D);
  }

  lemma Enqueued(budget: int)
    ensures var s := Run(EMPTY, [Enqueue(D, HOOK)], budget);
            && s == EMPTY.(rows := map[D := Row(HOOK, Pending, 0, None)])
            && LateStarts(EMPTY, [Enqueue(D, HOOK)], budget, D) == 0
  {
    RunOne(EMPTY, Enqueue(D, HOOK), budget);
    NoneStartLate(EMPTY, [Enqueue(D, HOOK)], budget, D);
  }

  // ---------------------------------------------------------------- overlap

  const DELIVERING: seq<Action> :=
    [Enqueue(D, HOOK)] + Beginning(2, D, false) + Claiming(1, D) + Answering(1, Accepted)

  const REOPENING := DELIVERING + [WriteRejected(2, 5)]
  const RECLAIMING := REOPENING + Claiming(1, D)

  /**
   * Overlap. Two attempts start on one pending row, budget 1. The first
   * delivers; the second, rejected by the breaker, makes the delivered row
   * pending, and it is claimed a second time although nothing crashed. The one
   * late start accounts for it: the bound on attempts is met.
   */
  lemma OverlapReopensDelivered()
    ensures RowIs(Run(EMPTY, DELIVERING, 1), Row(HOOK, Delivered, 1, None))
    ensures RowIs(Run(EMPTY, REOPENING, 1), Row(HOOK, Pending, 1, Some(5)))
    ensures RowIs(Run(EMPTY, RECLAIMING, 1), Row(HOOK, Pending, 2, Some(5)))
    ensures Run(EMPTY, RECLAIMING, 1).Crashes(D) == 0 && LateStarts(EMPTY, RECLAIMING, 1, D) == 1
  {
    hide Do, Run, LateStarts, Beginning, Claiming, Answering;
    var a := [Enqueue(D, HOOK)];
    Enqueued(1);
    var s1 := Run(EMPTY, a, 1);
    RunAppend(EMPTY, a, Beginning(2, D, false), 1, D);
    Begins(s1, 2, D, false, 1);
    var b := a + Beginning(2, D, false);
    var s2 := Run(EMPTY, b, 1);
    RunAppend(EMPTY, b, Claiming(1, D), 1, D);
    Claims(s2, 1, D, 1);
    Membership(s2, D, 2);
    var c := b + Claiming(1, D);
    var s3 := Run(EMPTY, c, 1);
    RunAppend(EMPTY, c, Answering(1, Accepted), 1, D);
    Answers(s3, 1, D, 1, Accepted, 1);
    RunAppend(EMPTY, DELIVERING, [WriteRejected(2, 5)], 1, D);
    IsRejected(Run(EMPTY, DELIVERING, 1), 2, D, 5, 1);
    RunAppend(EMPTY, REOPENING, Claiming(1, D), 1, D);
    var s5 := Run(EMPTY, REOPENING, 1);
    Claims(s5, 1, D, 1);
    forall v: Worker ensures v !in Openers(s5, D) { Membership(s5, D, v); }
    assert Openers(s5, D) == {};
  }

  // ---------------------------------------------------------------- starting on a failed row

  const FAILING: seq<Action> := [Enqueue(D, HOOK)] + Claiming(1, D) + Answering(1, Refused)
  const FAILED_REOPENING := FAILING + Beginning(1, D, false) + [WriteRejected(1, 5)]
  const FAILED_RECLAIMING := FAILED_REOPENING + Claiming(1, D)

  /**
   * Starting on a failed row. One attempt at a time, budget 1 and no crash, but
   * the attempt that starts on the failed row is rejected by the breaker and
   * reopens it: the next claim is attempt 2.
   */
  lemma FailedStartExceedsBudget()
    ensures RowIs(Run(EMPTY, FAILING, 1), Row(HOOK, Failed, 1, None))
    ensures RowIs(Run(EMPTY, FAILED_REOPENING, 1), Row(HOOK, Pending, 1, Some(5)))
    ensures RowIs(Run(EMPTY, FAILED_RECLAIMING, 1), Row(HOOK, Pending, 2, Some(5)))
    ensures Run(EMPTY, FAILED_RECLAIMING, 1).Crashes(D) == 0 && Openers(Run(EMPTY, FAILING, 1), D) == {}
  {
    hide Do, Run, LateStarts, Beginning, Claiming, Answering;
    var a := [Enqueue(D, HOOK)];
    Enqueued(1);
    RunAppend(EMPTY, a, Claiming(1, D), 1, D);
    Claims(Run(EMPTY, a, 1), 1, D, 1);
    var b := a + Claiming(1, D);
    RunAppend(EMPTY, b, Answering(1, Refused), 1, D);
    Answers(Run(EMPTY, b, 1), 1, D, 1, Refused, 1);
    var s3 := Run(EMPTY, FAILING, 1);
    forall v: Worker ensures v !in Openers(s3, D) { Membership(s3, D, v); }
    RunAppend(EMPTY, FAILING, Beginning(1, D, false), 1, D);
    Begins(s3, 1, D, false, 1);
    var c := FAILING + Beginning(1, D, false);
    RunAppend(EMPTY, c, [WriteRejected(1, 5)], 1, D);
    IsRejected(Run(EMPTY, c, 1), 1, D, 5, 1);
    RunAppend(EMPTY, FAILED_REOPENING, Claiming(1, D), 1, D);
    Claims(Run(EMPTY, FAILED_REOPENING, 1), 1, D, 1);
  }

  // ---------------------------------------------------------------- a sweep inside an attempt

  /** Worker 1 has posted for `D`; worker 0 delivers a sibling of the same webhook and is told 410. */
  const POSTED: seq<Action> := [Enqueue(D, HOOK), Enqueue(SIBLING, HOOK)] + Claiming(1, D) + [Post(1, Refused)]
  const CLAIMED := POSTED + Claiming(0, SIBLING)
  const SWEPT := CLAIMED + [Post(0, Gone), WriteAnswer(0, 0), Disable(0), Sweep(0)]
  const OVERWRITTEN := SWEPT + [WriteAnswer(1, 7)]

  lemma BothEnqueued(budget: int)
    ensures var a := [Enqueue(D, HOOK), Enqueue(SIBLING, HOOK)];
            && Run(EMPTY, a, budget) ==
               EMPTY.(rows := map[D := Row(HOOK, Pending, 0, None), SIBLING := Row(HOOK, Pending, 0, None)])
            && LateStarts(EMPTY, a, budget, D) == 0
  {
    assert D != SIBLING by { assert |D| == 8 && |SIBLING| == 7; }
    RunTwo(EMPTY, Enqueue(D, HOOK), Enqueue(SIBLING, HOOK), budget);
    NoneStartLate(EMPTY, [Enqueue(D, HOOK), Enqueue(SIBLING, HOOK)], budget, D);
  }

  lemma Posts(s: Sys, w: Worker, d: DeliveryId, n: nat, answer: Answer, budget: int)
    requires s.At(w) == Claimed(d, n) && d in s.rows
    ensures Moved(s, Run(s, [Post(w, answer)], budget), w, Answered(d, n, answer), d, s.rows[d])
    ensures LateStarts(s, [Post(w, answer)], budget, D) == 0
  {
    RunOne(s, Post(w, answer), budget);
    NoneStartLate(s, [Post(w, answer)], budget, D);
  }

  /** The 410 of a sibling: its webhook's pending rows fail, no other worker moves. */
  lemma GoneSweeps(s: Sys, d: DeliveryId, budget: int)
    requires s.At(0) == Claimed(d, 1) && d in s.rows
    ensures var actions := [Post(0, Gone), WriteAnswer(0, 0), Disable(0), Sweep(0)];
            var t := Run(s, actions, budget);
            && t.rows == SweepRows(s.Write(d, Failed, None).rows, s.rows[d].webhook)
            && (forall v: Worker | v != 0 :: t.At(v) == s.At(v))
            && LateStarts(s, actions, budget, D) == 0
  {
    hide Do, SweepRows;
    NoneStartLate(s, [Post(0, Gone), WriteAnswer(0, 0), Disable(0), Sweep(0)], budget, D);
    ShapeOfAnswer(s, d, 1, Gone, 0, budget);
    var s1 := Do(s, Post(0, Gone), budget);
    var s2 := Do(s1, WriteAnswer(0, 0), budget);
    var s3 := Do(s2, Disable(0), budget);
    ShapeOfSweep(s2, s.rows[d].webhook, budget);
    RunFour(s, Post(0, Gone), WriteAnswer(0, 0), Disable(0), Sweep(0), budget);
    RunTwo(s2, Disable(0), Sweep(0), budget);
    forall v: Worker | v != 0 ensures Do(s3, Sweep(0), budget).At(v) == s.At(v) {
      OthersStay(s, Post(0, Gone), budget, v);
      OthersStay(s1, WriteAnswer(0, 0), budget, v);
      OthersStay(s2, Disable(0), budget, v);
      OthersStay(s3, Sweep(0), budget, v);
    }
  }

  lemma BothClaim()
    ensures var s := Run(EMPTY, CLAIMED, 2);
            && s.rows == map[D := Row(HOOK, Pending, 1, None), SIBLING := Row(HOOK, Pending, 1, None)]
            && s.At(1) == Answered(D, 1, Refused) && s.At(0) == Claimed(SIBLING, 1)
            && LateStarts(EMPTY, CLAIMED, 2, D) == 0
  {
    assert D != SIBLING by { assert |D| == 8 && |SIBLING| == 7; }
    hide Do, Run, LateStarts, Beginning, Claiming, BackoffMs;
    var a := [Enqueue(D, HOOK), Enqueue(SIBLING, HOOK)];
    BothEnqueued(2);
    RunAppend(EMPTY, a, Claiming(1, D), 2, D);
    Claims(Run(EMPTY, a, 2), 1, D, 2);
    var b := a + Claiming(1, D);
    RunAppend(EMPTY, b, [Post(1, Refused)], 2, D);
    Posts(Run(EMPTY, b, 2), 1, D, 1, Refused, 2);
    RunAppend(EMPTY, POSTED, Claiming(0, SIBLING), 2, D);
    Claims(Run(EMPTY, POSTED, 2), 0, SIBLING, 2);
  }

  /**
   * A sweep inside an attempt, budget 2. Another delivery's 410 fails the row
   * while its only attempt, which started on the pending row with nobody else
   * on it, is open; the attempt's retry write makes it pending again.
   */
  lemma SweepIsOverwritten()
    ensures RowIs(Run(EMPTY, SWEPT, 2), Row(HOOK, Failed, 1, None))
    ensures RowIs(Run(EMPTY, OVERWRITTEN, 2), Row(HOOK, Pending, 1, Some(7 + BackoffMs(1))))
    ensures LateStarts(EMPTY, OVERWRITTEN, 2, D) == 0
  {
    assert D != SIBLING by { assert |D| == 8 && |SIBLING| == 7; }
    hide Do, Run, LateStarts, Claiming, BackoffMs;
    BothClaim();
    RunAppend(EMPTY, CLAIMED, [Post(0, Gone), WriteAnswer(0, 0), Disable(0), Sweep(0)], 2, D);
    GoneSweeps(Run(EMPTY, CLAIMED, 2), SIBLING, 2);
    var s := Run(EMPTY, SWEPT, 2);
    RunAppend(EMPTY, SWEPT, [WriteAnswer(1, 7)], 2, D);
    RunOne(s, WriteAnswer(1, 7), 2);
    Writes(s, 1, D, 1, Refused, 7, 2);
    NoneStartLate(s, [WriteAnswer(1, 7)], 2, D);
  }

  // ---------------------------------------------------------------- an attempt that finds its webhook switched off

  const LOADED: seq<Action> := [Enqueue(D, HOOK)] + [Load(2, D)]
  const WON := LOADED + Claiming(1, D) + Answering(1, Accepted)
  const LOST := WON + [Configure(HOOK, false), CheckWebhook(2, true)] + [WriteInactive(2)]

  lemma WonWhileLoaded()
    ensures var s := Run(EMPTY, WON, 1);
            RowIs(s, Row(HOOK, Delivered, 1, None)) && s.At(2) == Loaded(D, Row(HOOK, Pending, 0, None))
  {
    var a := [Enqueue(D, HOOK)];
    Enqueued(1);
    var s1 := Run(EMPTY, a, 1);
    RunAppend(EMPTY, a, [Load(2, D)], 1, D);
    RunOne(s1, Load(2, D), 1);
    var s2 := Do(s1, Load(2, D), 1);
    assert Moved(s1, s2, 2, Loaded(D, s1.rows[D]), D, s1.rows[D]);
    hide Do, Run, LateStarts, Beginning, Claiming, Answering;
    RunAppend(EMPTY, LOADED, Claiming(1, D), 1, D);
    Claims(s2, 1, D, 1);
    var b := LOADED + Claiming(1, D);
    RunAppend(EMPTY, b, Answering(1, Accepted), 1, D);
    Answers(Run(EMPTY, b, 1), 1, D, 1, Accepted, 1);
  }

  /** The delivered row is not reopened but failed, by an attempt that had been loaded before. */
  lemma InactiveFailsDelivered()
    ensures RowIs(Run(EMPTY, WON, 1), Row(HOOK, Delivered, 1, None))
    ensures RowIs(Run(EMPTY, LOST, 1), Row(HOOK, Failed, 1, None))
  {
    hide Do, Run, LateStarts, Claiming, Answering;
    WonWhileLoaded();
    var s := Run(EMPTY, WON, 1);
    SwitchedOff(s, 2, D, 1);
    var off := [Configure(HOOK, false), CheckWebhook(2, true)];
    RunAppend(EMPTY, WON, off, 1, D);
    RunAppend(EMPTY, WON + off, [WriteInactive(2)], 1, D);
    RunOne(Run(s, off, 1), WriteInactive(2), 1);
    ChangesIff(Run(s, off, 1), WriteInactive(2), 1, D);
  }

  lemma SwitchedOff(s: Sys, w: Worker, d: DeliveryId, budget: int)
    requires s.At(w).Loaded? && s.At(w).d == d && s.At(w).seen.webhook == HOOK
    ensures var t := Run(s, [Configure(HOOK, false), CheckWebhook(w, true)], budget);
            t.At(w) == Inactive(d) && t.rows == s.rows
  {
    RunTwo(s, Configure(HOOK, false), CheckWebhook(w, true), budget);
  }
}
