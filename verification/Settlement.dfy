/**
 * What bounds the attempts of a delivery and what makes its outcome final, over
 * every run of the outbox. Outcome writes carry no status guard, so both depend
 * on which attempts are open.
 */
module Settlement {
  import opened Text
  import opened Outbox

  // ---------------------------------------------------------------- open attempts

  predicate OpenOn(pc: Pc, d: DeliveryId) {
    match pc
    case Idle => false
    case Disabling(_) => false
    case Sweeping(_) => false
    case _ => pc.d == d
  }

  predicate WaitsOn(pc: Pc, d: DeliveryId) { OpenOn(pc, d) && !HoldsClaim(pc) }

  /** The workers with an attempt open on `d`, and those of them that hold no claim yet. */
  function Openers(s: Sys, d: DeliveryId): set<Worker> { set w | w in s.pcs && OpenOn(s.pcs[w], d) }

  function Waiting(s: Sys, d: DeliveryId): set<Worker> { set w | w in s.pcs && WaitsOn(s.pcs[w], d) }

  function Count(b: bool): nat { if b then 1 else 0 }

  lemma Membership(s: Sys, d: DeliveryId, w: Worker)
    ensures w in Openers(s, d) <==> OpenOn(s.At(w), d)
    ensures w in Waiting(s, d) <==> WaitsOn(s.At(w), d)
  {
  }

  /** Only the acting worker's place changes, so the counts change by its places before and after. */
  lemma CountsMove(s: Sys, a: Action, budget: int, d: DeliveryId)
    requires !a.IsExternal()
    ensures var t := Do(s, a, budget);
            && |Openers(t, d)| + Count(OpenOn(s.At(a.w), d)) == |Openers(s, d)| + Count(OpenOn(t.At(a.w), d))
            && |Waiting(t, d)| + Count(WaitsOn(s.At(a.w), d)) == |Waiting(s, d)| + Count(WaitsOn(t.At(a.w), d))
  {
    hide Do, Openers, Waiting, OpenOn, WaitsOn;
    var t := Do(s, a, budget);
    forall v: Worker
      ensures v != a.w ==> (v in Openers(s, d) <==> v in Openers(t, d)) && (v in Waiting(s, d) <==> v in Waiting(t, d))
    {
      if v != a.w {
        OthersStay(s, a, budget, v);
        Membership(s, d, v);
        Membership(t, d, v);
      }
    }
    Membership(s, d, a.w);
    Membership(t, d, a.w);
    DifferAtOne(Openers(s, d), Openers(t, d), a.w);
    DifferAtOne(Waiting(s, d), Waiting(t, d), a.w);
  }

  lemma CountsRest(s: Sys, d: DeliveryId)
    ensures Waiting(s, d) <= Openers(s, d)
    ensures forall v: Worker ::
              (v in Openers(s, d) <==> OpenOn(s.At(v), d)) && (v in Waiting(s, d) <==> WaitsOn(s.At(v), d))
    ensures |Waiting(s, d)| <= |Openers(s, d)|
    ensures forall v: Worker | OpenOn(s.At(v), d) && HoldsClaim(s.At(v)) :: |Waiting(s, d)| < |Openers(s, d)|
  {
    Subset(Waiting(s, d), Openers(s, d));
    forall v: Worker | OpenOn(s.At(v), d) && HoldsClaim(s.At(v)) ensures |Waiting(s, d)| < |Openers(s, d)| {
      assert v in Openers(s, d) && v !in Waiting(s, d);
      Subset(Waiting(s, d) + {v}, Openers(s, d));
    }
  }

  lemma Subset(a: set<Worker>, b: set<Worker>)
    requires a <= b
    ensures |a| <= |b|
  {
    assert b == a + (b - a);
  }

  // ---------------------------------------------------------------- what one step does to one delivery

  /** A worker with no attempt open on `d` leaves `d` alone, except by enqueueing it, loading it or sweeping it. */
  lemma Bystander(s: Sys, a: Action, budget: int, d: DeliveryId)
    requires a.IsExternal() || !OpenOn(s.At(a.w), d)
    ensures var after := Do(s, a, budget);
            && after.Crashes(d) == s.Crashes(d)
            && (d in s.rows ==> d in after.rows)
            && (d in s.rows && !a.Sweep? ==> after.rows[d] == s.rows[d])
            && (d in s.rows && a.Sweep? ==>
                  after.rows[d] == s.rows[d] ||
                  (s.At(a.w).Sweeping? && s.rows[d].webhook == s.At(a.w).webhook && s.rows[d].status.Pending?
                   && after.rows[d].status.Failed? && after.rows[d].attempts == s.rows[d].attempts))
            && (d !in s.rows && d in after.rows ==> after.rows[d].attempts == 0)
            && (!a.IsExternal() && OpenOn(after.At(a.w), d) ==>
                  a.Load? && a.d == d && d in s.rows && after.At(a.w) == Loaded(d, s.rows[d]))
  {
    hide DoClaim, DoAnswer, CanClaim;
    CompoundShapes(s, a, budget, 0, d);
  }

  /** What a worker whose attempt holds no claim can do: go on waiting, win the claim, or end the attempt. */
  lemma WaiterStep(s: Sys, a: Action, budget: int, d: DeliveryId)
    requires !a.IsExternal() && WaitsOn(s.At(a.w), d) && d in s.rows
    ensures var t := Do(s, a, budget); var pc := t.At(a.w);
            && d in t.rows && t.Crashes(d) == s.Crashes(d)
            && (OpenOn(pc, d) && HoldsClaim(pc) ==>
                  t.rows[d].attempts == s.rows[d].attempts + 1 == pc.n && t.rows[d].status.Pending?)
            && (OpenOn(pc, d) && !HoldsClaim(pc) ==> t.rows[d] == s.rows[d])
            && (!OpenOn(pc, d) ==> t.rows[d].attempts == s.rows[d].attempts)
            && (HoldsClaim(pc) ==> OpenOn(pc, d))
  {
    hide DoClaim, DoAnswer, SweepRows;
    CompoundShapes(s, a, budget, 0, d);
  }

  /** What the holder of a claim can do: hold on to it, crash, or write an outcome. */
  lemma HolderStep(s: Sys, a: Action, budget: int, d: DeliveryId)
    requires !a.IsExternal() && OpenOn(s.At(a.w), d) && HoldsClaim(s.At(a.w)) && d in s.rows
    ensures var t := Do(s, a, budget); var pc := t.At(a.w);
            && d in t.rows && t.rows[d].attempts == s.rows[d].attempts
            && (OpenOn(pc, d) ==>
                  HoldsClaim(pc) && pc.n == s.At(a.w).n && t.rows[d] == s.rows[d] && t.Crashes(d) == s.Crashes(d))
            && (!OpenOn(pc, d) ==>
                  || (t.rows[d] == s.rows[d] && t.Crashes(d) == s.Crashes(d) + 1)
                  || (t.Crashes(d) == s.Crashes(d) && (t.rows[d].status.Pending? ==> s.At(a.w).n < budget)))
  {
    hide DoClaim, DoAnswer, CanClaim, SweepRows;
    CompoundShapes(s, a, budget, 0, d);
  }

  // ---------------------------------------------------------------- the bound on attempts

  function Cap(budget: int): nat { if budget > 1 then budget else 1 }

  /** An attempt that starts on a row that is not pending, or while another is open on it. */
  predicate StartsLate(s: Sys, a: Action, d: DeliveryId) {
    && a.Load? && a.d == d && s.At(a.w).Idle? && d in s.rows && !s.rows[d].status.Delivered?
    && !(s.rows[d].status.Pending? && Openers(s, d) == {})
  }

  function LateStarts(s: Sys, actions: seq<Action>, budget: int, d: DeliveryId): nat
    decreases |actions|
  {
    if actions == [] then 0
    else Count(StartsLate(s, actions[0], d)) + LateStarts(Do(s, actions[0], budget), actions[1..], budget, d)
  }

  function Slack(s: Sys, budget: int, d: DeliveryId, late: nat): int {
    Cap(budget) + s.Crashes(d) + late - Attempts(s, d)
  }

  /**
   * Every waiting worker's claim is paid for; so is the next attempt's while
   * the row is pending with nobody on it, and the retry a holder within budget
   * may still grant. All but one of the open attempts started late.
   */
  ghost predicate Afforded(s: Sys, budget: int, d: DeliveryId, late: nat) {
    var slack, waiting, open := Slack(s, budget, d, late), |Waiting(s, d)|, |Openers(s, d)|;
    && slack >= waiting
    && (d in s.rows && s.rows[d].status.Pending? && open == 0 ==> slack >= 1)
    && (forall w: Worker | OpenOn(s.At(w), d) && HoldsClaim(s.At(w)) && s.At(w).n < budget :: slack >= waiting + 1)
    && open <= late + 1
    && (d !in s.rows ==> open == 0)
  }

  lemma ExternalAffords(s: Sys, a: Action, budget: int, d: DeliveryId, late: nat)
    requires Afforded(s, budget, d, late) && a.IsExternal()
    ensures Afforded(Do(s, a, budget), budget, d, late)
  {
    Bystander(s, a, budget, d);
    var t := Do(s, a, budget);
    assert t.pcs == s.pcs && Openers(t, d) == Openers(s, d) && Waiting(t, d) == Waiting(s, d);
    CountsRest(s, d);
    hide Do;
    assert forall w: Worker :: t.At(w) == s.At(w);
  }

  lemma BystanderAffords(s: Sys, a: Action, budget: int, d: DeliveryId, late: nat)
    requires Afforded(s, budget, d, late) && !a.IsExternal() && !OpenOn(s.At(a.w), d)
    ensures Afforded(Do(s, a, budget), budget, d, late + Count(StartsLate(s, a, d)))
  {
    var t := Do(s, a, budget);
    CountsRest(s, d);
    Bystander(s, a, budget, d);
    CountsMove(s, a, budget, d);
    LoadIsLate(s, a, budget, d);
    forall v: Worker | v != a.w ensures t.At(v) == s.At(v) { OthersStay(s, a, budget, v); }
    hide Do, Openers, Waiting, StartsLate;
  }

  /** A load that takes effect is late unless the row is pending and nobody is on it. */
  lemma LoadIsLate(s: Sys, a: Action, budget: int, d: DeliveryId)
    requires !a.IsExternal() && !OpenOn(s.At(a.w), d)
    ensures OpenOn(Do(s, a, budget).At(a.w), d) ==>
              && !HoldsClaim(Do(s, a, budget).At(a.w))
              && (StartsLate(s, a, d) <==> !(s.rows[d].status.Pending? && |Openers(s, d)| == 0))
    ensures StartsLate(s, a, d) ==> OpenOn(Do(s, a, budget).At(a.w), d)
  {
    Bystander(s, a, budget, d);
    if a.Load? {
      hide BackoffMs, SweepRows, HoldsClaim;
    }
  }

  lemma WaiterAffords(s: Sys, a: Action, budget: int, d: DeliveryId, late: nat)
    requires Afforded(s, budget, d, late) && !a.IsExternal() && WaitsOn(s.At(a.w), d)
    ensures Afforded(Do(s, a, budget), budget, d, late)
  {
    var t := Do(s, a, budget);
    CountsRest(s, d);
    CountsRest(t, d);
    assert a.w in Openers(s, d) && a.w in Waiting(s, d);
    WaiterStep(s, a, budget, d);
    CountsMove(s, a, budget, d);
    forall v: Worker | v != a.w ensures t.At(v) == s.At(v) { OthersStay(s, a, budget, v); }
    hide Do, Openers, Waiting;
  }

  lemma HolderAffords(s: Sys, a: Action, budget: int, d: DeliveryId, late: nat)
    requires Afforded(s, budget, d, late) && !a.IsExternal() && OpenOn(s.At(a.w), d) && HoldsClaim(s.At(a.w))
    ensures Afforded(Do(s, a, budget), budget, d, late)
  {
    var t := Do(s, a, budget);
    CountsRest(s, d);
    CountsRest(t, d);
    assert a.w in Openers(s, d);
    HolderStep(s, a, budget, d);
    CountsMove(s, a, budget, d);
    forall v: Worker | v != a.w ensures t.At(v) == s.At(v) { OthersStay(s, a, budget, v); }
    hide Do, Openers, Waiting;
  }

  lemma StepAffords(s: Sys, a: Action, budget: int, d: DeliveryId, late: nat)
    requires Afforded(s, budget, d, late)
    ensures Afforded(Do(s, a, budget), budget, d, late + Count(StartsLate(s, a, d)))
  {
    hide Do, Afforded;
    if a.IsExternal() {
      ExternalAffords(s, a, budget, d, late);
    } else if !OpenOn(s.At(a.w), d) {
      BystanderAffords(s, a, budget, d, late);
    } else if HoldsClaim(s.At(a.w)) {
      HolderAffords(s, a, budget, d, late);
    } else {
      WaiterAffords(s, a, budget, d, late);
    }
  }

  lemma {:induction false} RunAffords(s: Sys, actions: seq<Action>, budget: int, d: DeliveryId, late: nat)
    requires Afforded(s, budget, d, late)
    ensures Afforded(Run(s, actions, budget), budget, d, late + LateStarts(s, actions, budget, d))
    decreases |actions|
  {
    hide Do, Afforded, StartsLate;
    if actions != [] {
      var now := Count(StartsLate(s, actions[0], d));
      StepAffords(s, actions[0], budget, d, late);
      RunAffords(Do(s, actions[0], budget), actions[1..], budget, d, late + now);
    }
  }

  /**
   * In every run, whatever overlaps, crashes, is swept or reconfigured:
   * attempts exceed the retry budget (at least one) by no more than the crashes
   * after a claim and the attempts that started late.
   */
  lemma AttemptsBound(active: map<WebhookId, bool>, actions: seq<Action>, budget: int, d: DeliveryId)
    ensures var s := Run(Start(active), actions, budget);
            Attempts(s, d) <= Cap(budget) + s.Crashes(d) + LateStarts(Start(active), actions, budget, d)
  {
    assert Openers(Start(active), d) == {} && Waiting(Start(active), d) == {};
    RunAffords(Start(active), actions, budget, d, 0);
  }

  // ---------------------------------------------------------------- what changes a finished delivery

  /** The status and retry time that a step writes to the row of `d`, if it writes an outcome there. */
  function Written(s: Sys, a: Action, budget: int, d: DeliveryId): Option<(Status, Option<int>)>
    requires d in s.rows
  {
    match a
    case WriteInactive(w) => if s.At(w) == Inactive(d) then Some((Failed, s.rows[d].nextRetryAt)) else None
    case WriteRejected(w, retryAt) => if s.At(w) == Rejected(d) then Some((Pending, Some(retryAt))) else None
    case WriteUnsafe(w) => if s.At(w).Unsafe? && s.At(w).d == d then Some((Failed, None)) else None
    case WriteAnswer(w, now) =>
      if s.At(w).Answered? && s.At(w).d == d then Some(Outcome(s.At(w).n, s.At(w).answer, budget, now)) else None
    case _ => None
  }

  function Outcome(n: nat, answer: Answer, budget: int, now: int): (Status, Option<int>) {
    match answer
    case Accepted => (Delivered, None)
    case Gone => (Failed, None)
    case Refused => if n >= budget || n == 0 then (Failed, None) else (Pending, Some(now + BackoffMs(n)))
  }

  function Overwrite(row: Row, to: (Status, Option<int>)): Row { row.(status := to.0, nextRetryAt := to.1) }

  /**
   * Exactly when a step changes a delivered or failed row: an outcome write of
   * an attempt open on it that says something else. Claims and sweeps do not.
   */
  lemma ChangesIff(s: Sys, a: Action, budget: int, d: DeliveryId)
    requires d in s.rows && !s.rows[d].status.Pending?
    ensures var t := Do(s, a, budget); var to := Written(s, a, budget, d);
            && d in t.rows
            && t.rows[d] == (if to.Some? then Overwrite(s.rows[d], to.value) else s.rows[d])
            && (t.rows[d] != s.rows[d] <==>
                to.Some? && to.value != (s.rows[d].status, s.rows[d].nextRetryAt))
  {
    if a.WriteInactive? || a.WriteRejected? || a.WriteUnsafe? || a.WriteAnswer? {
      hide BackoffMs, HoldsClaim, SweepRows, CanClaim;
    } else {
      NoOutcome(s, a, budget, d);
    }
  }

  /** Claims, sweeps and all that writes no outcome. */
  lemma NoOutcome(s: Sys, a: Action, budget: int, d: DeliveryId)
    requires d in s.rows && !s.rows[d].status.Pending?
    requires !a.WriteInactive? && !a.WriteRejected? && !a.WriteUnsafe? && !a.WriteAnswer?
    ensures d in Do(s, a, budget).rows && Do(s, a, budget).rows[d] == s.rows[d]
  {
    hide BackoffMs, HoldsClaim;
  }

  /** Which writes make a finished row pending, a delivered one failed, a failed one delivered. */
  lemma ReopensIff(s: Sys, a: Action, budget: int, d: DeliveryId)
    requires d in s.rows && !s.rows[d].status.Pending?
    ensures d in Do(s, a, budget).rows
    ensures Do(s, a, budget).rows[d].status.Pending? <==>
              || (a.WriteRejected? && s.At(a.w) == Rejected(d))
              || (a.WriteAnswer? && s.At(a.w).Answered? && s.At(a.w).d == d && s.At(a.w).answer.Refused?
                  && 0 < s.At(a.w).n < budget)
    ensures s.rows[d].status.Delivered? ==>
              (Do(s, a, budget).rows[d].status.Failed? <==>
                 || (a.WriteInactive? && s.At(a.w) == Inactive(d))
                 || (a.WriteUnsafe? && s.At(a.w).Unsafe? && s.At(a.w).d == d)
                 || (a.WriteAnswer? && s.At(a.w).Answered? && s.At(a.w).d == d
                     && (s.At(a.w).answer.Gone? ||
                         (s.At(a.w).answer.Refused? && (s.At(a.w).n >= budget || s.At(a.w).n == 0)))))
    ensures s.rows[d].status.Failed? ==>
              (Do(s, a, budget).rows[d].status.Delivered? <==>
                 a.WriteAnswer? && s.At(a.w).Answered? && s.At(a.w).d == d && s.At(a.w).answer.Accepted?)
  {
    ChangesIff(s, a, budget, d);
    hide Do, BackoffMs;
  }

  /** An open attempt that cannot change the finished row `row`: all it can still write is what is there. */
  predicate Harmless(row: Row, pc: Pc, budget: int, d: DeliveryId) {
    OpenOn(pc, d) ==>
      match pc
      case Admitted(_, _) => true
      case Inactive(_) => row.status.Failed?
      case Unsafe(_, _) => row.status.Failed? && row.nextRetryAt.None?
      case Answered(_, n, answer) => Outcome(n, answer, budget, 0) == (row.status, row.nextRetryAt)
      case _ => false
  }

  ghost predicate AllHarmless(s: Sys, budget: int, d: DeliveryId)
    requires d in s.rows
  {
    forall v: Worker :: Harmless(s.rows[d], s.At(v), budget, d)
  }

  /** A finished row whose open attempts are all harmless stays, and they stay harmless, unless one starts on it. */
  lemma TerminalIsAbsorbing(s: Sys, a: Action, budget: int, d: DeliveryId)
    requires d in s.rows && !s.rows[d].status.Pending? && AllHarmless(s, budget, d)
    requires s.rows[d].status.Delivered? || !(a.Load? && a.d == d)
    ensures d in Do(s, a, budget).rows && Do(s, a, budget).rows[d] == s.rows[d]
    ensures AllHarmless(Do(s, a, budget), budget, d)
  {
    ChangesIff(s, a, budget, d);
    var t := Do(s, a, budget);
    forall v: Worker ensures Harmless(s.rows[d], t.At(v), budget, d) {
      assert Harmless(s.rows[d], s.At(v), budget, d);
      if a.IsExternal() || a.w != v {
        OthersStay(s, a, budget, v);
      } else {
        ActorStaysHarmless(s, a, budget, d);
      }
    }
    assert !a.IsExternal() ==> Harmless(s.rows[d], s.At(a.w), budget, d);
    hide Do;
  }

  lemma ActorStaysHarmless(s: Sys, a: Action, budget: int, d: DeliveryId)
    requires d in s.rows && !s.rows[d].status.Pending? && !a.IsExternal()
    requires Harmless(s.rows[d], s.At(a.w), budget, d)
    requires s.rows[d].status.Delivered? || !(a.Load? && a.d == d)
    ensures Harmless(s.rows[d], Do(s, a, budget).At(a.w), budget, d)
  {
    hide BackoffMs, SweepRows, HoldsClaim;
  }

  predicate Starts(actions: seq<Action>, d: DeliveryId) { exists a :: a in actions && a.Load? && a.d == d }

  lemma {:induction false} QuietIsFinal(s: Sys, actions: seq<Action>, budget: int, d: DeliveryId)
    requires d in s.rows && !s.rows[d].status.Pending? && AllHarmless(s, budget, d)
    requires s.rows[d].status.Delivered? || !Starts(actions, d)
    ensures d in Run(s, actions, budget).rows && Run(s, actions, budget).rows[d] == s.rows[d]
    decreases |actions|
  {
    if actions != [] {
      assert actions[0] in actions;
      TerminalIsAbsorbing(s, actions[0], budget, d);
      assert forall a | a in actions[1..] :: a in actions;
      hide Do, AllHarmless;
      QuietIsFinal(Do(s, actions[0], budget), actions[1..], budget, d);
    }
  }

  /** A delivered row with no attempt open on it is final in every run, whatever happened before. */
  lemma DeliveredIsFinal(s: Sys, actions: seq<Action>, budget: int, d: DeliveryId)
    requires d in s.rows && s.rows[d].status.Delivered? && Openers(s, d) == {}
    ensures d in Run(s, actions, budget).rows && Run(s, actions, budget).rows[d] == s.rows[d]
  {
    forall v: Worker ensures Harmless(s.rows[d], s.At(v), budget, d) { Membership(s, d, v); }
    QuietIsFinal(s, actions, budget, d);
  }

  /** What an attempt that is not harmless can do to the row without a new attempt starting on it. */
  function Harm(s: Sys, v: Worker, d: DeliveryId): seq<Action>
    requires d in s.rows
  {
    match s.At(v)
    case Loaded(_, seen) => [Configure(seen.webhook, true), CheckWebhook(v, false), WriteRejected(v, 0)]
    case Inactive(_) => [WriteInactive(v)]
    case Rejected(_) => [WriteRejected(v, 0)]
    case Claimed(_, _) =>
      if s.rows[d].status.Failed? then [Post(v, Accepted), WriteAnswer(v, 0)] else [FindUnsafe(v), WriteUnsafe(v)]
    case Unsafe(_, _) => [WriteUnsafe(v)]
    case Answered(_, _, _) => [WriteAnswer(v, 0)]
    case _ => []
  }

  lemma HarmChanges(s: Sys, v: Worker, budget: int, d: DeliveryId)
    requires d in s.rows && !s.rows[d].status.Pending? && !Harmless(s.rows[d], s.At(v), budget, d)
    ensures var t := Run(s, Harm(s, v, d), budget);
            !Starts(Harm(s, v, d), d) && d in t.rows && t.rows[d] != s.rows[d]
  {
    if s.At(v).Loaded? {
      LoadedChanges(s, v, budget, d);
    } else if s.At(v).Claimed? {
      ClaimedChanges(s, v, budget, d);
    } else {
      var a := Harm(s, v, d)[0];
      assert Harm(s, v, d) == [a];
      RunOne(s, a, budget);
      ChangesIff(s, a, budget, d);
      hide Do, BackoffMs;
    }
  }

  lemma RunOne(s: Sys, a: Action, budget: int)
    ensures Run(s, [a], budget) == Do(s, a, budget)
  {
    hide Do;
    assert [a][1..] == [];
    assert Run(Do(s, a, budget), [], budget) == Do(s, a, budget);
  }

  lemma LoadedChanges(s: Sys, v: Worker, budget: int, d: DeliveryId)
    requires d in s.rows && !s.rows[d].status.Pending? && s.At(v).Loaded? && s.At(v).d == d
    ensures var actions := [Configure(s.At(v).seen.webhook, true), CheckWebhook(v, false), WriteRejected(v, 0)];
            d in Run(s, actions, budget).rows && Run(s, actions, budget).rows[d].status.Pending?
  {
    var webhook := s.At(v).seen.webhook;
    var s1 := Do(s, Configure(webhook, true), budget);
    assert s1.At(v) == s.At(v) && s1.rows == s.rows && s1.active == s.active[webhook := true];
    var s2 := Do(s1, CheckWebhook(v, false), budget);
    assert s2.At(v) == Rejected(d) && s2.rows == s.rows;
    hide Do;
    ChangesIff(s2, WriteRejected(v, 0), budget, d);
    var actions := [Configure(webhook, true), CheckWebhook(v, false), WriteRejected(v, 0)];
    RunThree(s, actions[0], actions[1], actions[2], [], budget);
    assert actions + [] == actions;
    RunNothing(Do(s2, WriteRejected(v, 0), budget), budget);
  }

  lemma ClaimedChanges(s: Sys, v: Worker, budget: int, d: DeliveryId)
    requires d in s.rows && !s.rows[d].status.Pending? && s.At(v).Claimed? && s.At(v).d == d
    ensures var t := Run(s, Harm(s, v, d), budget); d in t.rows && t.rows[d].status != s.rows[d].status
  {
    var a, b := Harm(s, v, d)[0], Harm(s, v, d)[1];
    var s1 := Do(s, a, budget);
    assert s1.rows == s.rows;
    assert s1.At(v) == if s.rows[d].status.Failed? then Answered(d, s.At(v).n, Accepted) else Unsafe(d, s.At(v).n);
    hide Do;
    RunTwo(s, a, b, budget);
    assert Harm(s, v, d) == [a, b];
    ChangesIff(s1, b, budget, d);
  }

  /**
   * Which finished rows are final. A delivered row keeps its outcome in every
   * continuation, and a failed one in every continuation that starts no attempt
   * on it, if and only if each attempt open on it is harmless.
   */
  lemma FinalIff(s: Sys, budget: int, d: DeliveryId)
    requires d in s.rows && !s.rows[d].status.Pending?
    ensures (forall actions | s.rows[d].status.Delivered? || !Starts(actions, d) ::
               d in Run(s, actions, budget).rows && Run(s, actions, budget).rows[d] == s.rows[d]) <==>
            AllHarmless(s, budget, d)
  {
    if AllHarmless(s, budget, d) {
      forall actions | s.rows[d].status.Delivered? || !Starts(actions, d)
        ensures d in Run(s, actions, budget).rows && Run(s, actions, budget).rows[d] == s.rows[d]
      {
        QuietIsFinal(s, actions, budget, d);
      }
    } else {
      var v: Worker :| !Harmless(s.rows[d], s.At(v), budget, d);
      HarmChanges(s, v, budget, d);
      var actions := Harm(s, v, d);
      hide Do, Run, Harm, Starts;
      assert Run(s, actions, budget).rows[d] != s.rows[d];
    }
  }

  lemma IdleWorker(s: Sys) returns (w: Worker)
    ensures s.At(w).Idle?
  {
    w := 0;
    var rest := s.pcs.Keys;
    while w in s.pcs
      invariant rest <= s.pcs.Keys
      invariant forall x | x in s.pcs && x >= w :: x in rest
      decreases rest
    {
      assert w in rest;
      rest := rest - {w};
      w := w + 1;
    }
  }

  /** No failed row is final: an attempt may start on it, be rejected by the breaker and reopen it. */
  lemma FailedIsNeverFinal(s: Sys, budget: int, d: DeliveryId)
    requires d in s.rows && s.rows[d].status.Failed?
    ensures exists actions :: d in Run(s, actions, budget).rows && Run(s, actions, budget).rows[d] != s.rows[d]
  {
    var w := IdleWorker(s);
    var s1 := Do(s, Load(w, d), budget);
    assert s1.At(w) == Loaded(d, s.rows[d]) && s1.rows == s.rows;
    var rest := [Configure(s.rows[d].webhook, true), CheckWebhook(w, false), WriteRejected(w, 0)];
    LoadedChanges(s1, w, budget, d);
    RunCons(s, Load(w, d), rest, budget);
    hide Do, Run;
    assert Run(s, [Load(w, d)] + rest, budget).rows[d] != s.rows[d];
  }

  // ---------------------------------------------------------------- orderly histories

  /**
   * One attempt at a time on `d`: an attempt starts only on a pending row with
   * no other attempt open on it, and no 410 sweep of the webhook falls into an
   * open attempt.
   */
  ghost predicate Orderly(s: Sys, a: Action, d: DeliveryId) {
    && !StartsLate(s, a, d)
    && (a.Sweep? && s.At(a.w).Sweeping? && d in s.rows && s.rows[d].webhook == s.At(a.w).webhook ==>
          Openers(s, d) == {})
  }

  ghost predicate OrderlyRun(s: Sys, actions: seq<Action>, budget: int, d: DeliveryId)
    decreases |actions|
  {
    actions == [] || (Orderly(s, actions[0], d) && OrderlyRun(Do(s, actions[0], budget), actions[1..], budget, d))
  }

  /** At most one attempt is open, and only on a pending row. */
  ghost predicate Disciplined(s: Sys, d: DeliveryId) {
    |Openers(s, d)| <= 1 && (Openers(s, d) != {} ==> d in s.rows && s.rows[d].status.Pending?)
  }

  lemma StepKeepsDiscipline(s: Sys, a: Action, budget: int, d: DeliveryId)
    requires Disciplined(s, d) && Orderly(s, a, d)
    ensures Disciplined(Do(s, a, budget), d)
  {
    var t := Do(s, a, budget);
    if a.IsExternal() {
      Bystander(s, a, budget, d);
      assert t.pcs == s.pcs && Openers(t, d) == Openers(s, d);
    } else {
      CountsMove(s, a, budget, d);
      Membership(s, d, a.w);
      Membership(t, d, a.w);
      CountsRest(s, d);
      if !OpenOn(s.At(a.w), d) {
        Bystander(s, a, budget, d);
        LoadIsLate(s, a, budget, d);
        hide Do, Openers, Waiting, StartsLate;
      } else if HoldsClaim(s.At(a.w)) {
        HolderStep(s, a, budget, d);
        hide Do, Openers, Waiting, StartsLate;
      } else {
        WaiterStep(s, a, budget, d);
        hide Do, Openers, Waiting, StartsLate;
      }
    }
  }

  lemma {:induction false} OrderlyIsDisciplined(s: Sys, actions: seq<Action>, budget: int, d: DeliveryId)
    requires Disciplined(s, d) && OrderlyRun(s, actions, budget, d)
    ensures Disciplined(Run(s, actions, budget), d) && LateStarts(s, actions, budget, d) == 0
    decreases |actions|
  {
    if actions != [] {
      StepKeepsDiscipline(s, actions[0], budget, d);
      assert !StartsLate(s, actions[0], d);
      hide Do, Disciplined, StartsLate;
      OrderlyIsDisciplined(Do(s, actions[0], budget), actions[1..], budget, d);
    }
  }

  /**
   * After an orderly history attempts are within the retry budget (at least
   * one) plus the crashes after a claim; a delivered row is final whatever
   * comes later, orderly or not, and a failed one until an attempt starts on it.
   */
  lemma BudgetAndAbsorption(
    active: map<WebhookId, bool>, before: seq<Action>, later: seq<Action>, budget: int, d: DeliveryId)
    requires OrderlyRun(Start(active), before, budget, d)
    ensures var s := Run(Start(active), before, budget); var t := Run(s, later, budget);
            && Attempts(s, d) <= Cap(budget) + s.Crashes(d)
            && (d in s.rows && (s.rows[d].status.Delivered? || (s.rows[d].status.Failed? && !Starts(later, d))) ==>
                  d in t.rows && t.rows[d] == s.rows[d])
  {
    assert Openers(Start(active), d) == {};
    OrderlyIsDisciplined(Start(active), before, budget, d);
    AttemptsBound(active, before, budget, d);
    var s := Run(Start(active), before, budget);
    if d in s.rows && (s.rows[d].status.Delivered? || (s.rows[d].status.Failed? && !Starts(later, d))) {
      forall v: Worker ensures Harmless(s.rows[d], s.At(v), budget, d) { Membership(s, d, v); }
      QuietIsFinal(s, later, budget, d);
    }
  }
}
