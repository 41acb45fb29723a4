/**
 * The outbox and the breaker of one process together: the breaker decides which
 * attempts are admitted, and hears of an attempt only when it has posted.
 */
module Probes {
  import opened Text
  import opened Outbox
  import opened Settlement
  import opened Disorder
  import B = Breaker

  datatype World = World(sys: Sys, breakers: map<string, B.Entry>) {
    function Breaker(webhook: WebhookId): B.Entry { B.Lookup(breakers, webhook) }

    /** Half open with its probe out: nothing is admitted. */
    predicate ProbeIsOut(webhook: WebhookId) { Breaker(webhook).state.HalfOpen? && Breaker(webhook).probeInFlight }
  }

  /** A step at some time, or an operator's reset. A `Crash` is an attempt that throws. */
  datatype Step = Act(a: Action, now: int) | ManualReset(webhook: WebhookId)

  function Record(e: B.Entry, answer: Answer, cfg: B.Config, now: int): B.Entry {
    match answer
    case Accepted => B.Success(e, cfg)
    case Gone => B.NEW_ENTRY
    case Refused => B.Failure(e, cfg, now)
  }

  /** The breaker is asked after the webhook was found enabled. */
  function Check(w: World, v: Worker, cfg: B.Config, now: int, budget: int): World {
    match w.sys.At(v)
    case Loaded(_, seen) =>
      if seen.webhook !in w.sys.active || !w.sys.active[seen.webhook]
      then w.(sys := Do(w.sys, CheckWebhook(v, false), budget))
      else
        var decision := B.Should(w.Breaker(seen.webhook), cfg, now);
        World(Do(w.sys, CheckWebhook(v, decision.1), budget), w.breakers[seen.webhook := decision.0])
    case _ => w
  }

  function Next(w: World, step: Step, cfg: B.Config, budget: int): World {
    match step
    case ManualReset(webhook) => w.(breakers := w.breakers[webhook := B.NEW_ENTRY])
    case Act(a, now) =>
      if a.CheckWebhook? then Check(w, a.w, cfg, now, budget)
      else if a.Post? && w.sys.At(a.w).Claimed? && w.sys.At(a.w).d in w.sys.rows then
        var webhook := w.sys.rows[w.sys.At(a.w).d].webhook;
        World(Do(w.sys, a, budget), w.breakers[webhook := Record(w.Breaker(webhook), a.answer, cfg, now)])
      else w.(sys := Do(w.sys, a, budget))
  }

  function RunAll(w: World, steps: seq<Step>, cfg: B.Config, budget: int): World
    decreases |steps|
  {
    if steps == [] then w else RunAll(Next(w, steps[0], cfg, budget), steps[1..], cfg, budget)
  }

  /** What a step tells the breaker of the webhook: an attempt that asks it, or what the receiver answered a post. */
  function Told(w: World, step: Step, webhook: WebhookId): seq<B.Event> {
    match step
    case ManualReset(reset) => if reset == webhook then [B.ManualReset(0)] else []
    case Act(CheckWebhook(v, _), now) =>
      (match w.sys.At(v)
       case Loaded(_, seen) =>
         if seen.webhook == webhook && webhook in w.sys.active && w.sys.active[webhook] then [B.Attempt(now)] else []
       case _ => [])
    case Act(Post(v, answer), now) =>
      (match w.sys.At(v)
       case Claimed(d, _) =>
         if d in w.sys.rows && w.sys.rows[d].webhook == webhook
         then
           [match answer
            case Accepted => B.Succeeded(now)
            case Gone => B.ManualReset(now)
            case Refused => B.Failed(now)]
         else []
       case _ => [])
    case _ => []
  }

  function History(w: World, steps: seq<Step>, cfg: B.Config, budget: int, webhook: WebhookId): seq<B.Event>
    decreases |steps|
  {
    if steps == [] then []
    else Told(w, steps[0], webhook) + History(Next(w, steps[0], cfg, budget), steps[1..], cfg, budget, webhook)
  }

  lemma StepTells(w: World, step: Step, cfg: B.Config, budget: int, webhook: WebhookId)
    ensures Next(w, step, cfg, budget).Breaker(webhook) == B.After(w.Breaker(webhook), cfg, Told(w, step, webhook))
  {
    hide Do, B.Should, B.Success, B.Failure;
    var told := Told(w, step, webhook);
    if told != [] {
      assert told[1..] == [];
      assert B.After(w.Breaker(webhook), cfg, told) == B.Next(w.Breaker(webhook), cfg, told[0]);
    }
  }

  lemma {:induction false} AfterJoins(e: B.Entry, cfg: B.Config, p: seq<B.Event>, q: seq<B.Event>)
    ensures B.After(e, cfg, p + q) == B.After(B.After(e, cfg, p), cfg, q)
    decreases |p|
  {
    if p == [] {
      assert p + q == q;
    } else {
      AfterJoins(B.Next(e, cfg, p[0]), cfg, p[1..], q);
      assert (p + q)[1..] == p[1..] + q;
    }
  }

  /**
   * A webhook's breaker after any run of both systems is what its own history
   * makes of it: the attempts that asked it, each answer to a post (a 410
   * resets it), and the operator's resets.
   */
  lemma {:induction false} BreakerHears(w: World, steps: seq<Step>, cfg: B.Config, budget: int, webhook: WebhookId)
    ensures RunAll(w, steps, cfg, budget).Breaker(webhook) ==
            B.After(w.Breaker(webhook), cfg, History(w, steps, cfg, budget, webhook))
    decreases |steps|
  {
    hide Next, Told;
    if steps != [] {
      var next := Next(w, steps[0], cfg, budget);
      StepTells(w, steps[0], cfg, budget, webhook);
      BreakerHears(next, steps[1..], cfg, budget, webhook);
      AfterJoins(w.Breaker(webhook), cfg, Told(w, steps[0], webhook), History(next, steps[1..], cfg, budget, webhook));
    }
  }

  /** An attempt that was admitted for the webhook and may still post. */
  predicate MayReport(s: Sys, v: Worker, webhook: WebhookId) {
    match s.At(v)
    case Admitted(d, _) => d in s.rows && s.rows[d].webhook == webhook
    case Claimed(d, _) => d in s.rows && s.rows[d].webhook == webhook
    case _ => false
  }

  /** A worker remembers the webhook its row has, and attempts it has had. */
  predicate Remembers(s: Sys, v: Worker) {
    match s.At(v)
    case Loaded(d, seen) => d in s.rows && s.rows[d].webhook == seen.webhook && s.rows[d].attempts >= seen.attempts
    case Admitted(d, seen) => d in s.rows && s.rows[d].webhook == seen.webhook && s.rows[d].attempts >= seen.attempts
    case Claimed(d, _) => d in s.rows
    case _ => true
  }

  ghost predicate AllRemember(s: Sys) { forall v: Worker :: Remembers(s, v) }

  /** The probe is out and nobody is left to report on it. */
  ghost predicate Starved(w: World, webhook: WebhookId) {
    w.ProbeIsOut(webhook) && forall v: Worker :: !MayReport(w.sys, v, webhook)
  }

  lemma RowGoesOn(s: Sys, a: Action, budget: int, d: DeliveryId)
    requires d in s.rows
    ensures d in Do(s, a, budget).rows && Do(s, a, budget).rows[d].webhook == s.rows[d].webhook
    ensures Do(s, a, budget).rows[d].attempts >= s.rows[d].attempts
  {
    hide DoClaim, DoAnswer, HoldsClaim;
    CompoundShapes(s, a, budget, 0, d);
  }

  /** How the acting worker comes to be loaded, admitted or claimed. */
  lemma ActorMoves(s: Sys, a: Action, budget: int)
    requires !a.IsExternal() && Remembers(s, a.w)
    ensures var t := Do(s, a, budget); var pc := t.At(a.w);
            && Remembers(t, a.w)
            && (pc.Admitted? ==>
                  pc == s.At(a.w) || (a.CheckWebhook? && a.admitted && s.At(a.w) == Loaded(pc.d, pc.seen)))
            && (pc.Claimed? ==> pc == s.At(a.w) || (a.Claim? && s.At(a.w).Admitted? && s.At(a.w).d == pc.d))
  {
    hide DoClaim, DoAnswer, SweepRows, HoldsClaim;
    if s.At(a.w).Loaded? || s.At(a.w).Admitted? || s.At(a.w).Claimed? {
      RowGoesOn(s, a, budget, s.At(a.w).d);
    }
    CompoundShapes(s, a, budget, a.w, if s.At(a.w).Admitted? then s.At(a.w).d else "");
  }

  lemma RemembersStays(s: Sys, a: Action, budget: int, v: Worker)
    requires Remembers(s, v)
    ensures Remembers(Do(s, a, budget), v)
  {
    if !a.IsExternal() && a.w == v {
      ActorMoves(s, a, budget);
    } else {
      OthersStay(s, a, budget, v);
      if s.At(v).Loaded? || s.At(v).Admitted? || s.At(v).Claimed? {
        RowGoesOn(s, a, budget, s.At(v).d);
      }
      hide Do;
    }
  }

  /** What the worker system does in a step of both. */
  function Inner(w: World, step: Step, cfg: B.Config): Option<Action> {
    match step
    case ManualReset(_) => None
    case Act(a, now) =>
      if !a.CheckWebhook? then Some(a)
      else
        match w.sys.At(a.w)
        case Loaded(_, seen) =>
          var on := seen.webhook in w.sys.active && w.sys.active[seen.webhook];
          Some(CheckWebhook(a.w, on && B.Should(w.Breaker(seen.webhook), cfg, now).1))
        case _ => None
  }

  lemma InnerStep(w: World, step: Step, cfg: B.Config, budget: int)
    ensures Next(w, step, cfg, budget).sys ==
            if Inner(w, step, cfg).Some? then Do(w.sys, Inner(w, step, cfg).value, budget) else w.sys
  {
    hide Do;
  }

  lemma NextRemembers(w: World, step: Step, cfg: B.Config, budget: int)
    requires AllRemember(w.sys)
    ensures AllRemember(Next(w, step, cfg, budget).sys)
  {
    InnerStep(w, step, cfg, budget);
    hide Do, Next;
    var a := Inner(w, step, cfg);
    forall v: Worker ensures Remembers(Next(w, step, cfg, budget).sys, v) {
      assert Remembers(w.sys, v);
      if a.Some? {
        RemembersStays(w.sys, a.value, budget, v);
      }
    }
  }

  /** While the probe is out nobody new may report. */
  lemma NobodyNew(w: World, step: Step, cfg: B.Config, budget: int, webhook: WebhookId, v: Worker)
    requires AllRemember(w.sys) && w.ProbeIsOut(webhook)
    ensures MayReport(Next(w, step, cfg, budget).sys, v, webhook) ==> MayReport(w.sys, v, webhook)
  {
    InnerStep(w, step, cfg, budget);
    assert Remembers(w.sys, v);
    var inner := Inner(w, step, cfg);
    if inner.Some? {
      var a, t := inner.value, Do(w.sys, inner.value, budget);
      if a.IsExternal() || a.w != v {
        OthersStay(w.sys, a, budget, v);
      } else {
        ActorMoves(w.sys, a, budget);
      }
      if w.sys.At(v).Loaded? || w.sys.At(v).Admitted? || w.sys.At(v).Claimed? {
        RowGoesOn(w.sys, a, budget, w.sys.At(v).d);
      }
      hide Do, Next;
    }
  }

  /** The probe comes back only with a post for the webhook, or by a reset. */
  lemma ProbeStaysOut(w: World, step: Step, cfg: B.Config, budget: int, webhook: WebhookId)
    requires w.ProbeIsOut(webhook) && step != ManualReset(webhook)
    requires !(step.Act? && step.a.Post? && w.sys.At(step.a.w).Claimed? && MayReport(w.sys, step.a.w, webhook))
    ensures Next(w, step, cfg, budget).ProbeIsOut(webhook)
  {
    hide Do;
  }

  /** Once starved, starved until an operator resets the breaker. */
  lemma {:induction false} StarvedStays(w: World, steps: seq<Step>, cfg: B.Config, budget: int, webhook: WebhookId)
    requires AllRemember(w.sys) && Starved(w, webhook) && ManualReset(webhook) !in steps
    ensures Starved(RunAll(w, steps, cfg, budget), webhook)
    decreases |steps|
  {
    if steps != [] {
      var next := Next(w, steps[0], cfg, budget);
      ProbeStaysOut(w, steps[0], cfg, budget, webhook);
      NextRemembers(w, steps[0], cfg, budget);
      forall v: Worker ensures !MayReport(next.sys, v, webhook) {
        NobodyNew(w, steps[0], cfg, budget, webhook, v);
      }
      hide Next, AllRemember, MayReport;
      StarvedStays(next, steps[1..], cfg, budget, webhook);
    }
  }

  /** A starved breaker rejects every further attempt, at any time and however many there are. */
  lemma StarvedRejects(w: World, steps: seq<Step>, cfg: B.Config, budget: int, v: Worker, now: int, webhook: WebhookId)
    requires AllRemember(w.sys) && Starved(w, webhook) && ManualReset(webhook) !in steps
    ensures var t := RunAll(w, steps, cfg, budget);
            t.sys.At(v).Loaded? && t.sys.At(v).seen.webhook == webhook &&
            webhook in t.sys.active && t.sys.active[webhook] ==>
              Next(t, Act(CheckWebhook(v, true), now), cfg, budget).sys.At(v) == Rejected(t.sys.At(v).d)
  {
    StarvedStays(w, steps, cfg, budget, webhook);
    hide RunAll, MayReport;
  }

  /**
   * When a probe starves its breaker: exactly when the last attempt that may
   * still report loses its claim, finds its target unsafe, or throws.
   */
  lemma StarvesIff(w: World, step: Step, cfg: B.Config, budget: int, v: Worker, webhook: WebhookId)
    requires AllRemember(w.sys) && w.ProbeIsOut(webhook) && step != ManualReset(webhook)
    requires MayReport(w.sys, v, webhook) && forall u: Worker | u != v :: !MayReport(w.sys, u, webhook)
    ensures Starved(Next(w, step, cfg, budget), webhook) <==>
            && step.Act? && !step.a.IsExternal() && step.a.w == v
            && (|| (step.a.Claim? && w.sys.At(v).Admitted? && !CanClaim(w.sys, w.sys.At(v).d, w.sys.At(v).seen))
                || (step.a.FindUnsafe? && w.sys.At(v).Claimed?)
                || step.a.Crash?)
  {
    var next := Next(w, step, cfg, budget);
    forall u: Worker | u != v ensures !MayReport(next.sys, u, webhook) { NobodyNew(w, step, cfg, budget, webhook, u); }
    if !(step.Act? && step.a.Post? && w.sys.At(step.a.w).Claimed? && MayReport(w.sys, step.a.w, webhook)) {
      ProbeStaysOut(w, step, cfg, budget, webhook);
      ReporterStep(w, step, cfg, budget, v, webhook);
    } else {
      PostBringsBack(w, step, cfg, budget, webhook);
    }
    hide Next, Do, AllRemember;
  }

  /** The answer to a probe always frees the breaker for another. */
  lemma PostBringsBack(w: World, step: Step, cfg: B.Config, budget: int, webhook: WebhookId)
    requires step.Act? && step.a.Post? && w.sys.At(step.a.w).Claimed? && MayReport(w.sys, step.a.w, webhook)
    ensures !Next(w, step, cfg, budget).ProbeIsOut(webhook)
  {
    hide Do;
  }

  lemma ReporterStep(w: World, step: Step, cfg: B.Config, budget: int, v: Worker, webhook: WebhookId)
    requires Remembers(w.sys, v) && MayReport(w.sys, v, webhook)
    requires !(step.Act? && step.a.Post? && !step.a.IsExternal() && step.a.w == v && w.sys.At(v).Claimed?)
    ensures !MayReport(Next(w, step, cfg, budget).sys, v, webhook) <==>
            && step.Act? && !step.a.IsExternal() && step.a.w == v
            && (|| (step.a.Claim? && w.sys.At(v).Admitted? && !CanClaim(w.sys, w.sys.At(v).d, w.sys.At(v).seen))
                || (step.a.FindUnsafe? && w.sys.At(v).Claimed?)
                || step.a.Crash?)
  {
    InnerStep(w, step, cfg, budget);
    var inner := Inner(w, step, cfg);
    if inner.Some? {
      var a := inner.value;
      RowGoesOn(w.sys, a, budget, w.sys.At(v).d);
      if a.IsExternal() || a.w != v {
        OthersStay(w.sys, a, budget, v);
        hide Do, Next;
      } else {
        hide Next, BackoffMs, SweepRows, HoldsClaim;
      }
    }
  }

  // ---------------------------------------------------------------- whether a breaker can still be freed

  /** An open attempt that can make a delivered row pending or failed. */
  predicate Spoils(pc: Pc, d: DeliveryId) {
    OpenOn(pc, d) && !pc.Admitted? && !(pc.Answered? && pc.answer.Accepted?)
  }

  /**
   * An admitted attempt whose POST some continuation reaches: it holds its
   * claim, or the claim can still be won, which takes the attempts it has seen
   * and a row that is not delivered for good.
   */
  ghost predicate CanPost(s: Sys, v: Worker, webhook: WebhookId) {
    match s.At(v)
    case Claimed(d, _) => d in s.rows && s.rows[d].webhook == webhook
    case Admitted(d, seen) =>
      && d in s.rows && s.rows[d].webhook == webhook && s.rows[d].attempts == seen.attempts
      && (s.rows[d].status.Delivered? ==> exists u: Worker :: Spoils(s.At(u), d))
    case _ => false
  }

  /** The probe is out, and no attempt can still bring it back. */
  ghost predicate Doomed(w: World, webhook: WebhookId) {
    w.ProbeIsOut(webhook) && forall v: Worker :: !CanPost(w.sys, v, webhook)
  }

  /** A delivered row that no open attempt can spoil stays delivered, and unspoilt. */
  lemma DeliveredStays(s: Sys, a: Action, budget: int, d: DeliveryId)
    requires d in s.rows && s.rows[d].status.Delivered? && forall u: Worker :: !Spoils(s.At(u), d)
    ensures d in Do(s, a, budget).rows && Do(s, a, budget).rows[d].status.Delivered?
    ensures forall u: Worker :: !Spoils(Do(s, a, budget).At(u), d)
  {
    var t := Do(s, a, budget);
    ReopensIff(s, a, budget, d);
    assert !a.IsExternal() ==> !Spoils(s.At(a.w), d);
    forall u: Worker ensures !Spoils(t.At(u), d) {
      assert !Spoils(s.At(u), d);
      if a.IsExternal() || a.w != u {
        OthersStay(s, a, budget, u);
      } else {
        ActorStaysUnspoiling(s, a, budget, d);
      }
    }
    hide Do;
  }

  lemma ActorStaysUnspoiling(s: Sys, a: Action, budget: int, d: DeliveryId)
    requires d in s.rows && s.rows[d].status.Delivered? && !a.IsExternal() && !Spoils(s.At(a.w), d)
    ensures !Spoils(Do(s, a, budget).At(a.w), d)
  {
    hide BackoffMs, SweepRows, HoldsClaim;
  }

  /** While the probe is out nobody becomes able to post. */
  lemma NobodyRecovers(w: World, step: Step, cfg: B.Config, budget: int, webhook: WebhookId, v: Worker)
    requires AllRemember(w.sys) && w.ProbeIsOut(webhook) && !CanPost(w.sys, v, webhook)
    ensures !CanPost(Next(w, step, cfg, budget).sys, v, webhook)
  {
    InnerStep(w, step, cfg, budget);
    assert Remembers(w.sys, v);
    var inner := Inner(w, step, cfg);
    if inner.Some? {
      var a, t := inner.value, Do(w.sys, inner.value, budget);
      if a.IsExternal() || a.w != v {
        OthersStay(w.sys, a, budget, v);
      } else {
        ActorMoves(w.sys, a, budget);
        if a.Claim? && w.sys.At(v).Admitted? {
          CompoundShapes(w.sys, a, budget, v, w.sys.At(v).d);
        }
      }
      if w.sys.At(v).Loaded? || w.sys.At(v).Admitted? || w.sys.At(v).Claimed? {
        var d := w.sys.At(v).d;
        RowGoesOn(w.sys, a, budget, d);
        if w.sys.rows[d].status.Delivered? && forall u: Worker :: !Spoils(w.sys.At(u), d) {
          DeliveredStays(w.sys, a, budget, d);
        }
      }
      hide Do, Next;
    }
  }

  lemma {:induction false} DoomedStays(w: World, steps: seq<Step>, cfg: B.Config, budget: int, webhook: WebhookId)
    requires AllRemember(w.sys) && Doomed(w, webhook) && ManualReset(webhook) !in steps
    ensures Doomed(RunAll(w, steps, cfg, budget), webhook)
    decreases |steps|
  {
    if steps != [] {
      var next := Next(w, steps[0], cfg, budget);
      assert steps[0].Act? && !steps[0].a.IsExternal() ==> !CanPost(w.sys, steps[0].a.w, webhook);
      ProbeStaysOut(w, steps[0], cfg, budget, webhook);
      NextRemembers(w, steps[0], cfg, budget);
      forall v: Worker ensures !CanPost(next.sys, v, webhook) {
        NobodyRecovers(w, steps[0], cfg, budget, webhook, v);
      }
      hide Next, AllRemember, CanPost;
      DoomedStays(next, steps[1..], cfg, budget, webhook);
    }
  }

  /** Worker `v` still waits to claim `d` for the webhook, on the attempts it has seen, with the probe out. */
  ghost predicate Poised(w: World, v: Worker, d: DeliveryId, seen: Row, webhook: WebhookId) {
    && AllRemember(w.sys) && w.ProbeIsOut(webhook) && w.sys.At(v) == Admitted(d, seen)
    && d in w.sys.rows && w.sys.rows[d].webhook == webhook && w.sys.rows[d].attempts == seen.attempts
  }

  predicate IsAside(a: Action, v: Worker) {
    a.Configure? || (!a.IsExternal() && a.w != v && !a.Claim? && !a.Post?)
  }

  lemma StaysPoised(
    w: World, a: Action, cfg: B.Config, budget: int, v: Worker, d: DeliveryId, seen: Row, webhook: WebhookId)
    requires Poised(w, v, d, seen, webhook) && IsAside(a, v)
    ensures Poised(Next(w, Act(a, 0), cfg, budget), v, d, seen, webhook)
  {
    var step := Act(a, 0);
    InnerStep(w, step, cfg, budget);
    ProbeStaysOut(w, step, cfg, budget, webhook);
    NextRemembers(w, step, cfg, budget);
    var inner := Inner(w, step, cfg);
    if inner.Some? {
      OthersStay(w.sys, inner.value, budget, v);
      OtherStepAttempts(w.sys, inner.value, budget, d);
      RowGoesOn(w.sys, inner.value, budget, d);
    }
    hide Do, Next, AllRemember;
  }

  lemma RunAllCons(w: World, step: Step, rest: seq<Step>, cfg: B.Config, budget: int)
    ensures RunAll(w, [step] + rest, cfg, budget) == RunAll(Next(w, step, cfg, budget), rest, cfg, budget)
  {
    hide Next;
    assert ([step] + rest)[1..] == rest;
  }

  lemma RunAllNone(w: World, cfg: B.Config, budget: int)
    ensures RunAll(w, [], cfg, budget) == w
  {
  }

  /** A held claim: its POST frees the breaker. */
  lemma ClaimedFrees(w: World, cfg: B.Config, budget: int, v: Worker, webhook: WebhookId) returns (steps: seq<Step>)
    requires w.sys.At(v).Claimed? && CanPost(w.sys, v, webhook)
    ensures ManualReset(webhook) !in steps && !RunAll(w, steps, cfg, budget).ProbeIsOut(webhook)
  {
    var post := Act(Post(v, Accepted), 0);
    steps := [post] + [];
    PostBringsBack(w, post, cfg, budget, webhook);
    RunAllCons(w, post, [], cfg, budget);
    RunAllNone(Next(w, post, cfg, budget), cfg, budget);
    hide Next, RunAll;
  }

  /** A pending row: the waiting worker claims it. */
  lemma PendingFrees(w: World, cfg: B.Config, budget: int, v: Worker, d: DeliveryId, seen: Row, webhook: WebhookId)
    returns (steps: seq<Step>)
    requires Poised(w, v, d, seen, webhook) && w.sys.rows[d].status.Pending?
    ensures ManualReset(webhook) !in steps && !RunAll(w, steps, cfg, budget).ProbeIsOut(webhook)
  {
    var claim := Act(Claim(v), 0);
    CompoundShapes(w.sys, Claim(v), budget, v, d);
    assert CanClaim(w.sys, d, seen);
    var next := Next(w, claim, cfg, budget);
    assert next.sys == Do(w.sys, Claim(v), budget);
    hide Do, Next, RunAll;
    var rest := ClaimedFrees(next, cfg, budget, v, webhook);
    steps := [claim] + rest;
    RunAllCons(w, claim, rest, cfg, budget);
  }

  /** Another attempt asks the breaker, is rejected since the probe is out, and makes the row pending. */
  lemma LoadedFrees(
    w: World, cfg: B.Config, budget: int, v: Worker, d: DeliveryId, seen: Row, webhook: WebhookId, u: Worker)
    returns (steps: seq<Step>)
    requires Poised(w, v, d, seen, webhook) && u != v && w.sys.At(u).Loaded? && w.sys.At(u).d == d
    ensures ManualReset(webhook) !in steps && !RunAll(w, steps, cfg, budget).ProbeIsOut(webhook)
  {
    var on, ask, write := Configure(webhook, true), CheckWebhook(u, true), WriteRejected(u, 0);
    var w1 := Next(w, Act(on, 0), cfg, budget);
    var w2 := Next(w1, Act(ask, 0), cfg, budget);
    var w3 := Next(w2, Act(write, 0), cfg, budget);
    StaysPoised(w, on, cfg, budget, v, d, seen, webhook);
    StaysPoised(w1, ask, cfg, budget, v, d, seen, webhook);
    StaysPoised(w2, write, cfg, budget, v, d, seen, webhook);
    assert Remembers(w.sys, u);
    SwitchOn(w, cfg, budget, webhook, u);
    AskIsRejected(w1, cfg, budget, webhook, u);
    RejectionPends(w2, cfg, budget, d, u);
    hide Poised, Next, RunAll, Do;
    var rest := PendingFrees(w3, cfg, budget, v, d, seen, webhook);
    steps := [Act(on, 0)] + ([Act(ask, 0)] + ([Act(write, 0)] + rest));
    RunAllCons(w, Act(on, 0), [Act(ask, 0)] + ([Act(write, 0)] + rest), cfg, budget);
    RunAllCons(w1, Act(ask, 0), [Act(write, 0)] + rest, cfg, budget);
    RunAllCons(w2, Act(write, 0), rest, cfg, budget);
  }

  lemma SwitchOn(w: World, cfg: B.Config, budget: int, webhook: WebhookId, u: Worker)
    ensures var t := Next(w, Act(Configure(webhook, true), 0), cfg, budget);
            && t.sys.At(u) == w.sys.At(u) && t.breakers == w.breakers
            && webhook in t.sys.active && t.sys.active[webhook]
  {
  }

  lemma AskIsRejected(w: World, cfg: B.Config, budget: int, webhook: WebhookId, u: Worker)
    requires w.ProbeIsOut(webhook) && w.sys.At(u).Loaded? && w.sys.At(u).seen.webhook == webhook
    requires webhook in w.sys.active && w.sys.active[webhook]
    ensures Next(w, Act(CheckWebhook(u, true), 0), cfg, budget).sys.At(u) == Rejected(w.sys.At(u).d)
  {
  }

  lemma RejectionPends(w: World, cfg: B.Config, budget: int, d: DeliveryId, u: Worker)
    requires w.sys.At(u) == Rejected(d) && d in w.sys.rows
    ensures var t := Next(w, Act(WriteRejected(u, 0), 0), cfg, budget);
            d in t.sys.rows && t.sys.rows[d].status.Pending?
  {
  }

  /** A failed row: an idle worker loads it. */
  lemma FailedFrees(w: World, cfg: B.Config, budget: int, v: Worker, d: DeliveryId, seen: Row, webhook: WebhookId)
    returns (steps: seq<Step>)
    requires Poised(w, v, d, seen, webhook) && w.sys.rows[d].status.Failed?
    ensures ManualReset(webhook) !in steps && !RunAll(w, steps, cfg, budget).ProbeIsOut(webhook)
  {
    var u := IdleWorker(w.sys);
    var load := Load(u, d);
    var next := Next(w, Act(load, 0), cfg, budget);
    assert next.sys.At(u) == Loaded(d, w.sys.rows[d]);
    StaysPoised(w, load, cfg, budget, v, d, seen, webhook);
    hide Poised, Next, RunAll, Do;
    var rest := LoadedFrees(next, cfg, budget, v, d, seen, webhook, u);
    steps := [Act(load, 0)] + rest;
    RunAllCons(w, Act(load, 0), rest, cfg, budget);
  }

  /** The outcome write that a spoiling attempt is about to make. */
  function SpoilingWrite(pc: Pc, u: Worker): Action {
    match pc
    case Inactive(_) => WriteInactive(u)
    case Rejected(_) => WriteRejected(u, 0)
    case Unsafe(_, _) => WriteUnsafe(u)
    case _ => WriteAnswer(u, 0)
  }

  lemma WriteSpoils(s: Sys, budget: int, d: DeliveryId, u: Worker)
    requires d in s.rows && s.rows[d].status.Delivered? && Spoils(s.At(u), d) && !s.At(u).Loaded? && !s.At(u).Claimed?
    ensures var t := Do(s, SpoilingWrite(s.At(u), u), budget); d in t.rows && !t.rows[d].status.Delivered?
  {
    ChangesIff(s, SpoilingWrite(s.At(u), u), budget, d);
    hide Do, BackoffMs;
  }

  /** A delivered row: an attempt that can spoil it does. */
  lemma SpoiltFrees(
    w: World, cfg: B.Config, budget: int, v: Worker, d: DeliveryId, seen: Row, webhook: WebhookId, u: Worker)
    returns (steps: seq<Step>)
    requires Poised(w, v, d, seen, webhook) && w.sys.rows[d].status.Delivered? && Spoils(w.sys.At(u), d)
    ensures ManualReset(webhook) !in steps && !RunAll(w, steps, cfg, budget).ProbeIsOut(webhook)
  {
    if w.sys.At(u).Claimed? {
      steps := ClaimedFrees(w, cfg, budget, u, webhook);
    } else if w.sys.At(u).Loaded? {
      steps := LoadedFrees(w, cfg, budget, v, d, seen, webhook, u);
    } else {
      var a := SpoilingWrite(w.sys.At(u), u);
      var next := Next(w, Act(a, 0), cfg, budget);
      WriteSpoils(w.sys, budget, d, u);
      StaysPoised(w, a, cfg, budget, v, d, seen, webhook);
      assert next.sys == Do(w.sys, a, budget);
      hide Next, RunAll, Do;
      var rest;
      if next.sys.rows[d].status.Pending? {
        rest := PendingFrees(next, cfg, budget, v, d, seen, webhook);
      } else {
        rest := FailedFrees(next, cfg, budget, v, d, seen, webhook);
      }
      steps := [Act(a, 0)] + rest;
      RunAllCons(w, Act(a, 0), rest, cfg, budget);
    }
  }

  lemma CanPostFrees(w: World, cfg: B.Config, budget: int, v: Worker, webhook: WebhookId) returns (steps: seq<Step>)
    requires AllRemember(w.sys) && w.ProbeIsOut(webhook) && CanPost(w.sys, v, webhook)
    ensures ManualReset(webhook) !in steps && !RunAll(w, steps, cfg, budget).ProbeIsOut(webhook)
  {
    if w.sys.At(v).Claimed? {
      steps := ClaimedFrees(w, cfg, budget, v, webhook);
    } else {
      var d, seen := w.sys.At(v).d, w.sys.At(v).seen;
      assert Poised(w, v, d, seen, webhook);
      if w.sys.rows[d].status.Pending? {
        steps := PendingFrees(w, cfg, budget, v, d, seen, webhook);
      } else if w.sys.rows[d].status.Failed? {
        steps := FailedFrees(w, cfg, budget, v, d, seen, webhook);
      } else {
        var u: Worker :| Spoils(w.sys.At(u), d);
        steps := SpoiltFrees(w, cfg, budget, v, d, seen, webhook, u);
      }
    }
  }

  /**
   * When a probe can still come back: some continuation without a reset frees
   * the breaker if and only if some admitted attempt can still post.
   */
  lemma FreesIff(w: World, cfg: B.Config, budget: int, webhook: WebhookId)
    requires AllRemember(w.sys) && w.ProbeIsOut(webhook)
    ensures (exists steps ::
               ManualReset(webhook) !in steps && !RunAll(w, steps, cfg, budget).ProbeIsOut(webhook)) <==>
            !Doomed(w, webhook)
  {
    if Doomed(w, webhook) {
      forall steps | ManualReset(webhook) !in steps ensures RunAll(w, steps, cfg, budget).ProbeIsOut(webhook) {
        DoomedStays(w, steps, cfg, budget, webhook);
      }
    } else {
      var v: Worker :| CanPost(w.sys, v, webhook);
      var steps := CanPostFrees(w, cfg, budget, v, webhook);
    }
  }

  /** With nobody left who was admitted and may post, the breaker is doomed. */
  lemma StarvedIsDoomed(w: World, webhook: WebhookId)
    requires Starved(w, webhook)
    ensures Doomed(w, webhook)
  {
    forall v: Worker ensures !CanPost(w.sys, v, webhook) {
      assert !MayReport(w.sys, v, webhook);
    }
  }

  /** Workers that remember go on remembering, in every run; with nobody at work they do so trivially. */
  lemma {:induction false} RunsRemember(w: World, steps: seq<Step>, cfg: B.Config, budget: int)
    requires AllRemember(w.sys)
    ensures AllRemember(RunAll(w, steps, cfg, budget).sys)
    decreases |steps|
  {
    hide Next, AllRemember;
    if steps != [] {
      NextRemembers(w, steps[0], cfg, budget);
      RunsRemember(Next(w, steps[0], cfg, budget), steps[1..], cfg, budget);
    }
  }

  // ---------------------------------------------------------------- a starved breaker

  const CONFIG := B.Config(1, 60_000, 1)

  /** One refused attempt opens the circuit; the probe a minute later finds its target unsafe. */
  const FIRST: seq<Step> :=
    [Act(Enqueue(D, HOOK), 0), Act(Load(1, D), 0), Act(CheckWebhook(1, true), 0), Act(Claim(1), 0),
     Act(Post(1, Refused), 0)]
  const SECOND: seq<Step> :=
    [Act(WriteAnswer(1, 0), 0), Act(Load(1, D), 60_000), Act(CheckWebhook(1, true), 60_000), Act(Claim(1), 60_000),
     Act(FindUnsafe(1), 60_000)]

  const OPENED := B.Entry(B.Open, 1, 0, Some(0), false)
  const PROBING := B.Entry(B.HalfOpen, 1, 0, Some(0), true)

  /** Worker 1 at `pc`, everybody else idle, one row, one breaker. */
  ghost predicate Scene(w: World, pc: Pc, row: Row, e: B.Entry) {
    && (w.sys.pcs == map[1 := pc] || (pc.Idle? && w.sys.pcs == map[]))
    && w.sys.rows == map[D := row] && w.sys.active == map[HOOK := true] && w.Breaker(HOOK) == e
  }

  lemma Loads(w: World, row: Row, e: B.Entry, now: int)
    requires Scene(w, Idle, row, e) && row.status.Pending?
    ensures Scene(Next(w, Act(Load(1, D), now), CONFIG, 2), Loaded(D, row), row, e)
  {
  }

  lemma Checks(w: World, row: Row, e: B.Entry, now: int)
    requires Scene(w, Loaded(D, row), row, e) && row.webhook == HOOK && B.Should(e, CONFIG, now).1
    ensures Scene(Next(w, Act(CheckWebhook(1, true), now), CONFIG, 2), Admitted(D, row), row,
                  B.Should(e, CONFIG, now).0)
  {
  }

  lemma Wins(w: World, row: Row, e: B.Entry, now: int)
    requires Scene(w, Admitted(D, row), row, e) && row.status.Pending?
    ensures var n := row.attempts + 1;
            Scene(Next(w, Act(Claim(1), now), CONFIG, 2), Claimed(D, n), row.(attempts := n), e)
  {
  }

  lemma Refuses(w: World, n: nat, row: Row, e: B.Entry, now: int)
    requires Scene(w, Claimed(D, n), row, e) && row.webhook == HOOK
    ensures Scene(Next(w, Act(Post(1, Refused), now), CONFIG, 2), Answered(D, n, Refused), row,
                  B.Failure(e, CONFIG, now))
  {
  }

  lemma Retries(w: World, row: Row, e: B.Entry, now: int)
    requires Scene(w, Answered(D, 1, Refused), row, e)
    ensures Scene(Next(w, Act(WriteAnswer(1, 0), now), CONFIG, 2), Idle,
                  row.(status := Pending, nextRetryAt := Some(BackoffMs(1))), e)
  {
    hide BackoffMs;
  }

  lemma FindsUnsafe(w: World, n: nat, row: Row, e: B.Entry, now: int)
    requires Scene(w, Claimed(D, n), row, e)
    ensures Scene(Next(w, Act(FindUnsafe(1), now), CONFIG, 2), Unsafe(D, n), row, e)
  {
  }

  lemma RunFive(w: World, a: Step, b: Step, c: Step, d: Step, e: Step)
    ensures RunAll(w, [a, b, c, d, e], CONFIG, 2) ==
            Next(Next(Next(Next(Next(w, a, CONFIG, 2), b, CONFIG, 2), c, CONFIG, 2), d, CONFIG, 2), e, CONFIG, 2)
  {
    hide Next;
    assert [a, b, c, d, e][1..] == [b, c, d, e] && [b, c, d, e][1..] == [c, d, e];
    assert [c, d, e][1..] == [d, e] && [d, e][1..] == [e] && [e][1..] == [];
    var w1 := Next(w, a, CONFIG, 2);
    var w2 := Next(w1, b, CONFIG, 2);
    var w3 := Next(w2, c, CONFIG, 2);
    assert RunAll(w1, [b, c, d, e], CONFIG, 2) == RunAll(w2, [c, d, e], CONFIG, 2) == RunAll(w3, [d, e], CONFIG, 2);
    assert RunAll(w3, [d, e], CONFIG, 2) == RunAll(Next(w3, d, CONFIG, 2), [e], CONFIG, 2);
    var w4 := Next(w3, d, CONFIG, 2);
    assert RunAll(w4, [e], CONFIG, 2) == RunAll(Next(w4, e, CONFIG, 2), [], CONFIG, 2);
  }

  /** It happens: from an empty outbox and a new breaker, one refused attempt and one unsafe probe. */
  lemma BreakerStarves()
    ensures var w := RunAll(RunAll(World(EMPTY, map[]), FIRST, CONFIG, 2), SECOND, CONFIG, 2);
            Starved(w, HOOK) && AllRemember(w.sys)
  {
    hide Next, RunAll, BackoffMs, Scene, Starved, AllRemember, B.Should, B.Failure;
    var row0 := Row(HOOK, Pending, 0, None);
    var row := row0.(attempts := 1);
    var retried := row.(nextRetryAt := Some(BackoffMs(1)));
    var w1 := Next(World(EMPTY, map[]), FIRST[0], CONFIG, 2);
    BreakerMoves();
    Loads(w1, row0, B.NEW_ENTRY, 0);
    var w2 := Next(w1, FIRST[1], CONFIG, 2);
    Checks(w2, row0, B.NEW_ENTRY, 0);
    var w3 := Next(w2, FIRST[2], CONFIG, 2);
    Wins(w3, row0, B.NEW_ENTRY, 0);
    var w4 := Next(w3, FIRST[3], CONFIG, 2);
    Refuses(w4, 1, row, B.NEW_ENTRY, 0);
    var w5 := Next(w4, FIRST[4], CONFIG, 2);
    RunFive(World(EMPTY, map[]), FIRST[0], FIRST[1], FIRST[2], FIRST[3], FIRST[4]);
    Retries(w5, row, OPENED, 0);
    var w6 := Next(w5, SECOND[0], CONFIG, 2);
    Loads(w6, retried, OPENED, 60_000);
    var w7 := Next(w6, SECOND[1], CONFIG, 2);
    Checks(w7, retried, OPENED, 60_000);
    var w8 := Next(w7, SECOND[2], CONFIG, 2);
    Wins(w8, retried, PROBING, 60_000);
    var w9 := Next(w8, SECOND[3], CONFIG, 2);
    FindsUnsafe(w9, 2, retried.(attempts := 2), PROBING, 60_000);
    RunFive(w5, SECOND[0], SECOND[1], SECOND[2], SECOND[3], SECOND[4]);
    SceneIsStarved(Next(w9, SECOND[4], CONFIG, 2), retried.(attempts := 2));
  }

  lemma BreakerMoves()
    ensures Scene(Next(World(EMPTY, map[]), FIRST[0], CONFIG, 2), Idle, Row(HOOK, Pending, 0, None), B.NEW_ENTRY)
    ensures B.Should(B.NEW_ENTRY, CONFIG, 0) == (B.NEW_ENTRY, true) && B.Failure(B.NEW_ENTRY, CONFIG, 0) == OPENED
    ensures B.Should(OPENED, CONFIG, 60_000) == (PROBING, true)
  {
  }

  lemma SceneIsStarved(w: World, row: Row)
    requires Scene(w, Unsafe(D, 2), row, PROBING)
    ensures Starved(w, HOOK) && AllRemember(w.sys)
  {
  }
}
