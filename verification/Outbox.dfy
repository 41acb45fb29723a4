/**
 * The webhook outbox. Workers of any number of processes run the steps of
 * `attemptDelivery` on a shared delivery table; every database statement, the
 * POST and a crash are single steps that interleave freely.
 */
module Outbox {
  import opened Text

  type DeliveryId = string
  type WebhookId = string
  type Worker = nat

  datatype Status = Pending | Delivered | Failed

  datatype Row = Row(webhook: WebhookId, status: Status, attempts: nat, nextRetryAt: Option<int>)

  /** What the receiver answered: 2xx, 410 Gone (section 15.5.11 of RFC 9110), or anything else. */
  datatype Answer = Accepted | Gone | Refused

  /** Where a worker stands in `attemptDelivery`. */
  datatype Pc =
    | Idle
    | Loaded(d: DeliveryId, seen: Row)
    | Inactive(d: DeliveryId)
    | Rejected(d: DeliveryId)
    | Admitted(d: DeliveryId, seen: Row)
    | Claimed(d: DeliveryId, n: nat)
    | Unsafe(d: DeliveryId, n: nat)
    | Answered(d: DeliveryId, n: nat, answer: Answer)
    | Disabling(webhook: WebhookId)
    | Sweeping(webhook: WebhookId)

  /** One attempt number of one delivery, and who holds it. */
  datatype Attempt = Attempt(d: DeliveryId, n: nat, worker: Worker)

  datatype Sys = Sys(
    rows: map<DeliveryId, Row>, active: map<WebhookId, bool>, pcs: map<Worker, Pc>,
    claims: seq<Attempt>, posts: seq<Attempt>, crashes: map<DeliveryId, nat>)
  {
    function At(w: Worker): Pc { if w in pcs then pcs[w] else Idle }

    function Crashes(d: DeliveryId): nat { if d in crashes then crashes[d] else 0 }

    function Go(w: Worker, pc: Pc): Sys { this.(pcs := pcs[w := pc]) }

    /** `update ... where id = d`, which does nothing when the row is gone. */
    function Write(d: DeliveryId, status: Status, nextRetryAt: Option<int>): Sys {
      if d in rows then this.(rows := rows[d := rows[d].(status := status, nextRetryAt := nextRetryAt)]) else this
    }
  }

  function Pow4(n: nat): nat { if n == 0 then 1 else 4 * Pow4(n - 1) }

  /** 30s, 2m, 8m, ... after attempts 1, 2, 3, ... */
  function BackoffMs(attempts: nat): nat
    requires attempts > 0
  {
    30_000 * Pow4(attempts - 1)
  }

  datatype Action =
    | Enqueue(d: DeliveryId, webhook: WebhookId)
    | Load(w: Worker, d: DeliveryId)
    | CheckWebhook(w: Worker, admitted: bool)
    | WriteInactive(w: Worker)
    | WriteRejected(w: Worker, retryAt: int)
    | Claim(w: Worker)
    | FindUnsafe(w: Worker)
    | WriteUnsafe(w: Worker)
    | Post(w: Worker, answer: Answer)
    | WriteAnswer(w: Worker, now: int)
    | Disable(w: Worker)
    | Sweep(w: Worker)
    | Crash(w: Worker)
    | Configure(webhook: WebhookId, on: bool)
  {
    /** Ingest and operators, rather than a worker. */
    predicate IsExternal() { Enqueue? || Configure? }
  }

  function CanClaim(s: Sys, d: DeliveryId, seen: Row): bool {
    d in s.rows && s.rows[d].attempts == seen.attempts && s.rows[d].status.Pending?
  }

  function DoClaim(s: Sys, w: Worker, d: DeliveryId, seen: Row): Sys {
    if CanClaim(s, d, seen) then
      var n := seen.attempts + 1;
      s.(rows := s.rows[d := s.rows[d].(attempts := n)], claims := s.claims + [Attempt(d, n, w)]).Go(w, Claimed(d, n))
    else s.Go(w, Idle)
  }

  function DoAnswer(s: Sys, w: Worker, d: DeliveryId, n: nat, answer: Answer, budget: int, now: int): Sys {
    match answer
    case Accepted => s.Write(d, Delivered, None).Go(w, Idle)
    case Gone =>
      s.Write(d, Failed, None).Go(w, if d in s.rows then Disabling(s.rows[d].webhook) else Idle)
    case Refused =>
      if n >= budget || n == 0 then s.Write(d, Failed, None).Go(w, Idle)
      else s.Write(d, Pending, Some(now + BackoffMs(n))).Go(w, Idle)
  }

  function SweepRows(rows: map<DeliveryId, Row>, webhook: WebhookId): map<DeliveryId, Row> {
    map d | d in rows ::
      if rows[d].webhook == webhook && rows[d].status.Pending?
      then rows[d].(status := Failed, nextRetryAt := None) else rows[d]
  }

  function HoldsClaim(pc: Pc): bool { pc.Claimed? || pc.Unsafe? || pc.Answered? }

  /** One step of the system. An action whose worker stands elsewhere does nothing. */
  function Do(s: Sys, a: Action, budget: int): Sys {
    match a
    case Enqueue(d, webhook) =>
      if d in s.rows then s else s.(rows := s.rows[d := Row(webhook, Pending, 0, None)])
    case Configure(webhook, on) => s.(active := s.active[webhook := on])
    case Load(w, d) =>
      if s.At(w).Idle? && d in s.rows && !s.rows[d].status.Delivered? then s.Go(w, Loaded(d, s.rows[d])) else s
    case CheckWebhook(w, admitted) =>
      (match s.At(w)
       case Loaded(d, seen) =>
         if seen.webhook !in s.active || !s.active[seen.webhook] then s.Go(w, Inactive(d))
         else if admitted then s.Go(w, Admitted(d, seen))
         else s.Go(w, Rejected(d))
       case _ => s)
    case WriteInactive(w) =>
      (match s.At(w)
       case Inactive(d) =>
         s.Write(d, Failed, if d in s.rows then s.rows[d].nextRetryAt else None).Go(w, Idle)
       case _ => s)
    case WriteRejected(w, retryAt) =>
      (match s.At(w) case Rejected(d) => s.Write(d, Pending, Some(retryAt)).Go(w, Idle) case _ => s)
    case Claim(w) =>
      (match s.At(w) case Admitted(d, seen) => DoClaim(s, w, d, seen) case _ => s)
    case FindUnsafe(w) =>
      (match s.At(w) case Claimed(d, n) => s.Go(w, Unsafe(d, n)) case _ => s)
    case WriteUnsafe(w) =>
      (match s.At(w) case Unsafe(d, _) => s.Write(d, Failed, None).Go(w, Idle) case _ => s)
    case Post(w, answer) =>
      (match s.At(w)
       case Claimed(d, n) => s.(posts := s.posts + [Attempt(d, n, w)]).Go(w, Answered(d, n, answer))
       case _ => s)
    case WriteAnswer(w, now) =>
      (match s.At(w) case Answered(d, n, answer) => DoAnswer(s, w, d, n, answer, budget, now) case _ => s)
    case Disable(w) =>
      (match s.At(w)
       case Disabling(webhook) =>
         s.(active := if webhook in s.active then s.active[webhook := false] else s.active).Go(w, Sweeping(webhook))
       case _ => s)
    case Sweep(w) =>
      (match s.At(w) case Sweeping(webhook) => s.(rows := SweepRows(s.rows, webhook)).Go(w, Idle) case _ => s)
    case Crash(w) =>
      var pc := s.At(w);
      (if HoldsClaim(pc) then s.(crashes := s.crashes[pc.d := s.Crashes(pc.d) + 1]) else s).Go(w, Idle)
  }

  function Run(s: Sys, actions: seq<Action>, budget: int): Sys
    decreases |actions|
  {
    if actions == [] then s else Run(Do(s, actions[0], budget), actions[1..], budget)
  }

  function Start(active: map<WebhookId, bool>): Sys { Sys(map[], active, map[], [], [], map[]) }

  // ---------------------------------------------------------------- one owner per attempt

  function Attempts(s: Sys, d: DeliveryId): nat { if d in s.rows then s.rows[d].attempts else 0 }

  /** The attempt numbers claimed of one delivery, in order. */
  function ClaimsOf(log: seq<Attempt>, d: DeliveryId): seq<nat> {
    if log == [] then []
    else ClaimsOf(log[..|log| - 1], d) + if log[|log| - 1].d == d then [log[|log| - 1].n] else []
  }

  function UpTo(n: nat): seq<nat> { seq(n, i => i + 1) }

  /** A worker past the claim is in the log of claims, and has posted only once its answer is in. */
  predicate HoldsProperly(s: Sys, w: Worker) {
    var pc := s.At(w);
    HoldsClaim(pc) ==>
      && Attempt(pc.d, pc.n, w) in s.claims
      && (!pc.Answered? ==> Attempt(pc.d, pc.n, w) !in s.posts)
  }

  ghost predicate Ownership(s: Sys) {
    && (forall d :: ClaimsOf(s.claims, d) == UpTo(Attempts(s, d)))
    && (forall w :: HoldsProperly(s, w))
    && (forall i | 0 <= i < |s.posts| :: s.posts[i] in s.claims)
    && (forall i, j | 0 <= i < j < |s.posts| :: s.posts[i] != s.posts[j])
  }

  lemma ClaimsPush(log: seq<Attempt>, a: Attempt, d: DeliveryId)
    ensures ClaimsOf(log + [a], d) == ClaimsOf(log, d) + if a.d == d then [a.n] else []
  {
    assert (log + [a])[..|log|] == log;
  }

  lemma {:induction false} ClaimedNumber(log: seq<Attempt>, a: Attempt)
    requires a in log
    ensures a.n in ClaimsOf(log, a.d)
  {
    if log[|log| - 1] != a {
      var i :| 0 <= i < |log| && log[i] == a;
      assert log[..|log| - 1][i] == a;
      ClaimedNumber(log[..|log| - 1], a);
    }
  }

  lemma ClaimCounts(s: Sys, w: Worker, d: DeliveryId, seen: Row, x: DeliveryId)
    requires ClaimsOf(s.claims, x) == UpTo(Attempts(s, x))
    ensures ClaimsOf(DoClaim(s, w, d, seen).claims, x) == UpTo(Attempts(DoClaim(s, w, d, seen), x))
  {
    hide ClaimsOf, UpTo;
    if CanClaim(s, d, seen) {
      ClaimsPush(s.claims, Attempt(d, seen.attempts + 1, w), x);
      UpToNext(seen.attempts);
      assert ClaimsOf(s.claims, x) + [] == ClaimsOf(s.claims, x);
    }
  }

  lemma UpToNext(n: nat)
    ensures UpTo(n + 1) == UpTo(n) + [n + 1]
  {
  }

  lemma ClaimKeepsOwnership(s: Sys, w: Worker, d: DeliveryId, seen: Row)
    requires Ownership(s) && s.At(w) == Admitted(d, seen)
    ensures Ownership(DoClaim(s, w, d, seen))
  {
    var after := DoClaim(s, w, d, seen);
    if CanClaim(s, d, seen) {
      ClaimIsNew(s, w, d, seen);
    }
    hide ClaimsOf, UpTo, Attempts;
    forall x ensures ClaimsOf(after.claims, x) == UpTo(Attempts(after, x)) {
      assert ClaimsOf(s.claims, x) == UpTo(Attempts(s, x));
      ClaimCounts(s, w, d, seen, x);
    }
    forall x ensures HoldsProperly(after, x) {
      assert HoldsProperly(s, x);
    }
  }

  lemma ClaimIsNew(s: Sys, w: Worker, d: DeliveryId, seen: Row)
    requires Ownership(s) && CanClaim(s, d, seen)
    ensures Attempt(d, seen.attempts + 1, w) !in s.claims
  {
    var a := Attempt(d, seen.attempts + 1, w);
    assert ClaimsOf(s.claims, d) == UpTo(Attempts(s, d));
    if a in s.claims {
      ClaimedNumber(s.claims, a);
    }
  }

  /** What a claim does to any worker and any row. */
  predicate ClaimEffect(s: Sys, t: Sys, w: Worker, v: Worker, x: DeliveryId)
    requires s.At(w).Admitted?
  {
    var d, seen := s.At(w).d, s.At(w).seen;
    && t.active == s.active && t.crashes == s.crashes && t.posts == s.posts && t.rows.Keys == s.rows.Keys
    && (v != w ==> t.At(v) == s.At(v))
    && t.At(w) == (if CanClaim(s, d, seen) then Claimed(d, seen.attempts + 1) else Idle)
    && (x in s.rows ==>
          t.rows[x] == if x == d && CanClaim(s, d, seen) then s.rows[d].(attempts := seen.attempts + 1) else s.rows[x])
  }

  lemma ClaimShape(s: Sys, w: Worker, d: DeliveryId, seen: Row, v: Worker, x: DeliveryId)
    requires s.At(w) == Admitted(d, seen)
    ensures ClaimEffect(s, DoClaim(s, w, d, seen), w, v, x)
  {
  }

  /** What the write of an answer does to any worker and any row. */
  predicate AnswerEffect(s: Sys, t: Sys, w: Worker, budget: int, v: Worker, x: DeliveryId)
    requires s.At(w).Answered?
  {
    && t.active == s.active && t.crashes == s.crashes && t.posts == s.posts && t.claims == s.claims
    && t.rows.Keys == s.rows.Keys
    && (v != w ==> t.At(v) == s.At(v)) && (t.At(w).Idle? || t.At(w).Disabling?)
    && (x in s.rows ==>
          && t.rows[x].attempts == s.rows[x].attempts && t.rows[x].webhook == s.rows[x].webhook
          && (x != s.At(w).d ==> t.rows[x] == s.rows[x])
          && (x == s.At(w).d && t.rows[x].status.Pending? ==> s.At(w).n < budget))
  }

  lemma AnswerShape(
    s: Sys, w: Worker, d: DeliveryId, n: nat, answer: Answer, budget: int, now: int, v: Worker, x: DeliveryId)
    requires s.At(w) == Answered(d, n, answer)
    ensures AnswerEffect(s, DoAnswer(s, w, d, n, answer, budget, now), w, budget, v, x)
  {
    hide BackoffMs;
    match answer
    case Accepted =>
    case Gone =>
    case Refused =>
  }

  /** The two compound steps of `Do`, for one worker and one row. */
  lemma CompoundShapes(s: Sys, a: Action, budget: int, v: Worker, x: DeliveryId)
    ensures a.Claim? && s.At(a.w).Admitted? ==> ClaimEffect(s, Do(s, a, budget), a.w, v, x)
    ensures a.WriteAnswer? && s.At(a.w).Answered? ==> AnswerEffect(s, Do(s, a, budget), a.w, budget, v, x)
  {
    hide DoClaim, DoAnswer, ClaimEffect, AnswerEffect;
    if a.Claim? && s.At(a.w).Admitted? {
      ClaimShape(s, a.w, s.At(a.w).d, s.At(a.w).seen, v, x);
    }
    if a.WriteAnswer? && s.At(a.w).Answered? {
      AnswerShape(s, a.w, s.At(a.w).d, s.At(a.w).n, s.At(a.w).answer, budget, a.now, v, x);
    }
  }

  /** Only the acting worker moves. */
  lemma OthersStay(s: Sys, a: Action, budget: int, v: Worker)
    requires a.IsExternal() || a.w != v
    ensures Do(s, a, budget).At(v) == s.At(v)
  {
    hide DoClaim, DoAnswer, SweepRows, CanClaim, HoldsClaim;
    CompoundShapes(s, a, budget, v, "");
  }

  /** Any other step: attempts stay. */
  lemma OtherStepAttempts(s: Sys, a: Action, budget: int, d: DeliveryId)
    requires !a.Claim?
    ensures Attempts(Do(s, a, budget), d) == Attempts(s, d)
  {
    hide DoClaim, DoAnswer, CanClaim, HoldsClaim;
    CompoundShapes(s, a, budget, 0, d);
  }

  /** Any other step: no worker moves to a new claim. */
  lemma OtherStepWorker(s: Sys, a: Action, budget: int, x: Worker)
    requires !a.Claim?
    ensures var after := Do(s, a, budget);
            HoldsClaim(after.At(x)) ==>
              && HoldsClaim(s.At(x)) && after.At(x).d == s.At(x).d && after.At(x).n == s.At(x).n
              && (!after.At(x).Answered? ==> !s.At(x).Answered? && !(a.Post? && a.w == x && s.At(x).Claimed?))
  {
    hide BackoffMs, SweepRows;
    if !a.IsExternal() && a.w != x {
      OthersStay(s, a, budget, x);
    }
  }

  lemma OtherStepLogs(s: Sys, a: Action, budget: int)
    requires !a.Claim?
    ensures var after := Do(s, a, budget);
            && after.claims == s.claims
            && (if a.Post? && s.At(a.w).Claimed?
                then after.posts == s.posts + [Attempt(s.At(a.w).d, s.At(a.w).n, a.w)] && after.At(a.w).Answered?
                else after.posts == s.posts)
  {
  }

  lemma StepKeepsOwnership(s: Sys, a: Action, budget: int)
    requires Ownership(s)
    ensures Ownership(Do(s, a, budget))
  {
    if a.Claim? {
      if s.At(a.w).Admitted? {
        ClaimKeepsOwnership(s, a.w, s.At(a.w).d, s.At(a.w).seen);
      }
    } else {
      var after := Do(s, a, budget);
      OtherStepLogs(s, a, budget);
      hide Do;
      forall x ensures HoldsProperly(after, x) {
        assert HoldsProperly(s, x);
        OtherStepWorker(s, a, budget, x);
      }
      assert a.Post? ==> HoldsProperly(s, a.w);
      forall d ensures ClaimsOf(after.claims, d) == UpTo(Attempts(after, d)) {
        assert ClaimsOf(s.claims, d) == UpTo(Attempts(s, d));
        OtherStepAttempts(s, a, budget, d);
      }
    }
  }

  lemma {:induction false} RunKeepsOwnership(s: Sys, actions: seq<Action>, budget: int)
    requires Ownership(s)
    ensures Ownership(Run(s, actions, budget))
    decreases |actions|
  {
    if actions != [] {
      StepKeepsOwnership(s, actions[0], budget);
      RunKeepsOwnership(Do(s, actions[0], budget), actions[1..], budget);
    }
  }

  predicate Distinct<T(==)>(s: seq<T>) { forall i, j | 0 <= i < j < |s| :: s[i] != s[j] }

  lemma {:induction false} NumberHasClaim(log: seq<Attempt>, d: DeliveryId, n: nat)
    requires n in ClaimsOf(log, d)
    ensures exists a :: a in log && a.d == d && a.n == n
  {
    var last := log[|log| - 1];
    if !(last.d == d && last.n == n) {
      NumberHasClaim(log[..|log| - 1], d, n);
    }
  }

  /** Distinct numbers in the log of a delivery: one entry per number. */
  lemma {:induction false} OneEntryPerNumber(log: seq<Attempt>, a: Attempt, b: Attempt)
    requires a in log && b in log && a.d == b.d && a.n == b.n && Distinct(ClaimsOf(log, a.d))
    ensures a == b
  {
    var last, rest := log[|log| - 1], log[..|log| - 1];
    assert log == rest + [last];
    var earlier := ClaimsOf(rest, a.d);
    assert earlier == ClaimsOf(log, a.d)[..|earlier|];
    assert last.d == a.d ==> last.n !in earlier by {
      assert last.d == a.d ==> ClaimsOf(log, a.d)[|earlier|] == last.n;
    }
    if a in rest && b in rest {
      OneEntryPerNumber(rest, a, b);
    } else if a in rest {
      ClaimedNumber(rest, a);
    } else if b in rest {
      ClaimedNumber(rest, b);
    }
  }

  lemma {:induction false} PostNumbersDistinct(posts: seq<Attempt>, claims: seq<Attempt>, d: DeliveryId)
    requires Distinct(posts) && Distinct(ClaimsOf(claims, d))
    requires forall i | 0 <= i < |posts| :: posts[i] in claims
    ensures Distinct(ClaimsOf(posts, d))
    ensures forall n | n in ClaimsOf(posts, d) :: n in ClaimsOf(claims, d)
  {
    if posts != [] {
      var last, rest := posts[|posts| - 1], posts[..|posts| - 1];
      PostNumbersDistinct(rest, claims, d);
      assert last in claims;
      if last.d == d {
        ClaimedNumber(claims, last);
        if last.n in ClaimsOf(rest, d) {
          NumberHasClaim(rest, d, last.n);
          var a :| a in rest && a.d == d && a.n == last.n;
          OneEntryPerNumber(claims, a, last);
        }
      }
    }
  }

  lemma NonEmptyHasElement(s: seq<nat>)
    requires s != []
    ensures exists n: nat :: n in s
  {
    assert s[0] in s;
  }

  lemma {:induction false} DistinctBounded(s: seq<nat>, k: nat)
    requires Distinct(s) && forall n | n in s :: 0 < n <= k
    ensures |s| <= k
    decreases k
  {
    if k == 0 {
      if s != [] {
        NonEmptyHasElement(s);
      }
    } else if k in s {
      var i :| 0 <= i < |s| && s[i] == k;
      var rest := s[..i] + s[i + 1..];
      assert forall n | n in rest :: n in s;
      DistinctBounded(rest, k - 1);
    } else {
      DistinctBounded(s, k - 1);
    }
  }

  /**
   * In every interleaving: `attempts` counts the claims won, no attempt number
   * has two owners, each owned attempt is posted at most once and nothing else
   * is posted, so POSTs never exceed `attempts`.
   */
  lemma OneOwnerPerAttempt(active: map<WebhookId, bool>, actions: seq<Action>, budget: int, d: DeliveryId)
    ensures var s := Run(Start(active), actions, budget);
            && ClaimsOf(s.claims, d) == UpTo(Attempts(s, d))
            && (forall a, b | a in s.claims && b in s.claims && a.d == b.d == d && a.n == b.n :: a.worker == b.worker)
            && Distinct(s.posts) && (forall a | a in s.posts :: a in s.claims)
            && |ClaimsOf(s.posts, d)| <= Attempts(s, d)
  {
    assert Ownership(Start(active)) by {
      assert forall x :: Attempts(Start(active), x) == 0 && UpTo(0) == [];
    }
    RunKeepsOwnership(Start(active), actions, budget);
    var s := Run(Start(active), actions, budget);
    assert ClaimsOf(s.claims, d) == UpTo(Attempts(s, d));
    forall a, b | a in s.claims && b in s.claims && a.d == b.d == d && a.n == b.n ensures a.worker == b.worker {
      OneEntryPerNumber(s.claims, a, b);
    }
    PostNumbersDistinct(s.posts, s.claims, d);
    DistinctBounded(ClaimsOf(s.posts, d), Attempts(s, d));
  }

  /** The first retry waits half a minute and each later one four times as long as the one before. */
  lemma BackoffGrows(n: nat)
    requires n > 0
    ensures BackoffMs(1) == 30_000 && BackoffMs(n + 1) == 4 * BackoffMs(n)
  {
    assert Pow4(n) == 4 * Pow4(n - 1);
  }

  // ---------------------------------------------------------------- the service

  /** What is left of the tables by a call that won attempt `n` of the delivery. */
  ghost predicate IsFinish(
    before: map<DeliveryId, Row>, on: map<WebhookId, bool>, d: DeliveryId, n: nat, safe: bool, answer: Answer, now: int,
    budget: int, after: map<DeliveryId, Row>, onAfter: map<WebhookId, bool>)
    requires d in before && n > 0
  {
    var (webhook, attempts) := (before[d].webhook, before[d].attempts);
    if safe && answer.Gone? then
      && onAfter == (if webhook in on then on[webhook := false] else on)
      && after.Keys == before.Keys && after[d] == Row(webhook, Failed, attempts, None)
      && forall x | x in before && x != d ::
           after[x] == if before[x].webhook == webhook && before[x].status.Pending?
                       then Row(webhook, Failed, before[x].attempts, None) else before[x]
    else
      && onAfter == on
      && after == before[d := if safe && answer.Accepted? then Row(webhook, Delivered, attempts, None)
                              else if safe && n < budget
                              then Row(webhook, Pending, attempts, Some(now + BackoffMs(n)))
                              else Row(webhook, Failed, attempts, None)]
  }

  lemma UnsubscribedIs(
    before: map<DeliveryId, Row>, on: map<WebhookId, bool>, d: DeliveryId, n: nat, now: int, budget: int,
    failed: map<DeliveryId, Row>, after: map<DeliveryId, Row>)
    requires d in before && n > 0 && failed == before[d := Row(before[d].webhook, Failed, before[d].attempts, None)]
    requires after.Keys == failed.Keys
    requires forall x | x in after ::
               after[x] == if failed[x].webhook == before[d].webhook && failed[x].status == Pending
                           then Row(before[d].webhook, Failed, failed[x].attempts, None) else failed[x]
    ensures IsFinish(before, on, d, n, true, Gone, now, budget, after,
                     if before[d].webhook in on then on[before[d].webhook := false] else on)
  {
  }

  /**
   * What is left of the tables by an undisturbed call. It changes nothing for a
   * missing or delivered row; fails it when its webhook is off, whatever its
   * status; postpones it when the breaker rejects; and otherwise, if it is
   * pending, counts one attempt and finishes it.
   */
  ghost predicate IsCall(
    before: map<DeliveryId, Row>, on: map<WebhookId, bool>, d: DeliveryId, admitted: bool, retryAt: int, safe: bool,
    answer: Answer, now: int, budget: int, after: map<DeliveryId, Row>, onAfter: map<WebhookId, bool>)
  {
    if d !in before || before[d].status.Delivered? then after == before && onAfter == on
    else
      var Row(webhook, status, attempts, nextRetryAt) := before[d];
      if webhook !in on || !on[webhook] then
        onAfter == on && after == before[d := Row(webhook, Failed, attempts, nextRetryAt)]
      else if !admitted then onAfter == on && after == before[d := Row(webhook, Pending, attempts, Some(retryAt))]
      else if status.Failed? then after == before && onAfter == on
      else
        IsFinish(before[d := Row(webhook, Pending, attempts + 1, nextRetryAt)], on, d, attempts + 1, safe, answer, now,
                 budget, after, onAfter)
  }

  /** `attemptDelivery` over the two tables, one statement after the other. */
  class WebhookService {
    var rows: map<DeliveryId, Row>
    var active: map<WebhookId, bool>
    const retryAttempts: int

    constructor (retryAttempts: int)
      ensures rows == map[] && active == map[] && this.retryAttempts == retryAttempts
    {
      rows, active := map[], map[];
      this.retryAttempts := retryAttempts;
    }

    /** The tables, with worker 0 idle and fresh logs. */
    ghost function Before(): Sys
      reads this
    {
      Sys(rows, active, map[], [], [], map[])
    }

    method SetStatus(d: DeliveryId, status: Status, nextRetryAt: Option<int>)
      modifies this`rows
      ensures rows == old(Before()).Write(d, status, nextRetryAt).rows
      ensures d !in old(rows) ==> rows == old(rows)
      ensures d in old(rows) ==>
                rows == old(rows)[d := Row(old(rows)[d].webhook, status, old(rows)[d].attempts, nextRetryAt)]
    {
      if d in rows {
        rows := rows[d := rows[d].(status := status, nextRetryAt := nextRetryAt)];
      }
    }

    /** The optimistic claim; `seen` is the row as it was selected. */
    method TryClaim(d: DeliveryId, seen: Row) returns (won: bool)
      modifies this`rows
      ensures won == CanClaim(old(Before()), d, seen)
      ensures won == (d in old(rows) && old(rows)[d].attempts == seen.attempts && old(rows)[d].status == Pending)
      ensures rows == if won then old(rows)[d := old(rows)[d].(attempts := seen.attempts + 1)] else old(rows)
    {
      won := d in rows && rows[d].attempts == seen.attempts && rows[d].status.Pending?;
      if won {
        rows := rows[d := rows[d].(attempts := seen.attempts + 1)];
      }
    }

    method FailPending(webhook: WebhookId)
      modifies this`rows
      ensures rows == SweepRows(old(rows), webhook)
      ensures rows.Keys == old(rows).Keys
      ensures forall x | x in rows ::
                rows[x] == if old(rows)[x].webhook == webhook && old(rows)[x].status == Pending
                           then Row(webhook, Failed, old(rows)[x].attempts, None) else old(rows)[x]
    {
      var todo := rows.Keys;
      while todo != {}
        invariant todo <= rows.Keys == old(rows).Keys
        invariant forall d | d in todo :: rows[d] == old(rows)[d]
        invariant forall d | d in rows && d !in todo :: rows[d] == SweepRows(old(rows), webhook)[d]
        decreases todo
      {
        var d :| d in todo;
        if rows[d].webhook == webhook && rows[d].status.Pending? {
          rows := rows[d := rows[d].(status := Failed, nextRetryAt := None)];
        }
        todo := todo - {d};
      }
    }

    /**
     * One call, undisturbed: what worker 0 does in the step system above.
     * `admitted`, `safe` and `answer` are what the breaker, the target check
     * and the receiver say.
     */
    method AttemptDelivery(d: DeliveryId, admitted: bool, retryAt: int, safe: bool, answer: Answer, now: int)
      modifies this`rows, this`active
      ensures var t := Run(old(Before()), WholeCall(d, admitted, retryAt, safe, answer, now), retryAttempts);
              rows == t.rows && active == t.active && t.At(0).Idle?
      ensures IsCall(old(rows), old(active), d, admitted, retryAt, safe, answer, now, retryAttempts, rows, active)
    {
      hide Run, Do, SweepRows, BackoffMs, AfterClaim, IsFinish;
      var budget := retryAttempts;
      ghost var g := Before();
      ghost var claim := [Claim(0)] + AfterClaim(safe, answer, now);
      ghost var check := [CheckWebhook(0, admitted), WriteInactive(0), WriteRejected(0, retryAt)] + claim;
      OnlyResumes(admitted, retryAt, safe, answer, now);
      RunCons(g, Load(0, d), check, budget);
      ShapeOfLoad(g, d, budget);
      if d !in rows || rows[d].status.Delivered? {
        IdleSkips(g, check, budget);
        return;
      }
      var delivery := rows[d];
      g := Do(g, Load(0, d), budget);
      ghost var g2 := Do(g, CheckWebhook(0, admitted), budget);
      ghost var g3 := Do(g2, WriteInactive(0), budget);
      ghost var g4 := Do(g3, WriteRejected(0, retryAt), budget);
      RunThree(g, CheckWebhook(0, admitted), WriteInactive(0), WriteRejected(0, retryAt), claim, budget);
      ShapeOfCheck(g, d, admitted, budget);
      ShapeOfWrites(g2, d, retryAt, budget);
      if delivery.webhook !in active || !active[delivery.webhook] {
        SetStatus(d, Failed, delivery.nextRetryAt);
        IdleSkips(g4, claim, budget);
        return;
      }
      if !admitted {
        SetStatus(d, Pending, Some(retryAt));
        IdleSkips(g4, claim, budget);
        return;
      }
      RunCons(g4, Claim(0), AfterClaim(safe, answer, now), budget);
      ShapeOfClaim(g4, d, delivery, budget);
      var won := TryClaim(d, delivery);
      ghost var g5 := Do(g4, Claim(0), budget);
      if !won {
        IdleSkips(g5, AfterClaim(safe, answer, now), budget);
        return;
      }
      assert rows == old(rows)[d := Row(delivery.webhook, Pending, delivery.attempts + 1, delivery.nextRetryAt)];
      FinishAttempt(g5, d, delivery.attempts + 1, safe, answer, now);
    }

    /** The rest of a call that won the claim of attempt `n`. */
    method FinishAttempt(ghost g: Sys, d: DeliveryId, n: nat, safe: bool, answer: Answer, now: int)
      requires rows == g.rows && active == g.active && g.At(0) == Claimed(d, n) && d in rows && n > 0
      modifies this`rows, this`active
      ensures var t := Run(g, AfterClaim(safe, answer, now), retryAttempts);
              rows == t.rows && active == t.active && t.At(0).Idle?
      ensures IsFinish(old(rows), old(active), d, n, safe, answer, now, retryAttempts, rows, active)
    {
      hide Run, Do, SweepRows, BackoffMs;
      var budget := retryAttempts;
      if !safe {
        ShapeOfUnsafe(g, d, n, budget);
        RunTwo(g, FindUnsafe(0), WriteUnsafe(0), budget);
        SetStatus(d, Failed, None);
        return;
      }
      RunFour(g, Post(0, answer), WriteAnswer(0, now), Disable(0), Sweep(0), budget);
      ShapeOfAnswer(g, d, n, answer, now, budget);
      ghost var g2 := Do(Do(g, Post(0, answer), budget), WriteAnswer(0, now), budget);
      RunTwo(g2, Disable(0), Sweep(0), budget);
      if answer.Gone? {
        var webhook := rows[d].webhook;
        SetStatus(d, Failed, None);
        ghost var failed := rows;
        ShapeOfSweep(g2, webhook, budget);
        if webhook in active {
          active := active[webhook := false];
        }
        FailPending(webhook);
        UnsubscribedIs(old(rows), old(active), d, n, now, budget, failed, rows);
        hide IsFinish;
        return;
      }
      IdleSkips(g2, [Disable(0), Sweep(0)], budget);
      if answer.Accepted? {
        SetStatus(d, Delivered, None);
      } else if n >= retryAttempts {
        SetStatus(d, Failed, None);
      } else {
        SetStatus(d, Pending, Some(now + BackoffMs(n)));
      }
    }
  }

  /** Every step of a call, of which those off its path do nothing. */
  function WholeCall(d: DeliveryId, admitted: bool, retryAt: int, safe: bool, answer: Answer, now: int): seq<Action> {
    [Load(0, d)]
    + ([CheckWebhook(0, admitted), WriteInactive(0), WriteRejected(0, retryAt)]
       + ([Claim(0)] + AfterClaim(safe, answer, now)))
  }

  function AfterClaim(safe: bool, answer: Answer, now: int): seq<Action> {
    if safe then [Post(0, answer), WriteAnswer(0, now), Disable(0), Sweep(0)] else [FindUnsafe(0), WriteUnsafe(0)]
  }

  /** Steps that an idle worker 0 does not take. */
  ghost predicate Resumes(script: seq<Action>) {
    forall a | a in script :: !a.IsExternal() && !a.Crash? && !a.Load? && a.w == 0
  }

  lemma OnlyResumes(admitted: bool, retryAt: int, safe: bool, answer: Answer, now: int)
    ensures var rest := AfterClaim(safe, answer, now);
            && Resumes(rest) && Resumes([Claim(0)] + rest)
            && Resumes([CheckWebhook(0, admitted), WriteInactive(0), WriteRejected(0, retryAt)] + ([Claim(0)] + rest))
    ensures Resumes([Disable(0), Sweep(0)])
  {
  }

  lemma {:induction false} IdleSkips(s: Sys, script: seq<Action>, budget: int)
    requires s.At(0).Idle? && Resumes(script)
    ensures Run(s, script, budget) == s
    decreases |script|
  {
    if script != [] {
      assert script[0] in script;
      assert Do(s, script[0], budget) == s by { hide BackoffMs, SweepRows; }
      hide Do;
      IdleSkips(s, script[1..], budget);
    }
  }

  lemma RunNothing(s: Sys, budget: int)
    ensures Run(s, [], budget) == s
  {
  }

  lemma RunCons(s: Sys, a: Action, rest: seq<Action>, budget: int)
    ensures Run(s, [a] + rest, budget) == Run(Do(s, a, budget), rest, budget)
  {
    hide Do;
    assert ([a] + rest)[1..] == rest;
  }

  lemma RunTwo(s: Sys, a: Action, b: Action, budget: int)
    ensures Run(s, [a, b], budget) == Do(Do(s, a, budget), b, budget)
  {
    hide Do;
    assert [a, b][1..] == [b] && [b][1..] == [];
    assert Run(Do(s, a, budget), [b], budget) == Do(Do(s, a, budget), b, budget);
  }

  lemma RunThree(s: Sys, a: Action, b: Action, c: Action, rest: seq<Action>, budget: int)
    ensures Run(s, [a, b, c] + rest, budget) == Run(Do(Do(Do(s, a, budget), b, budget), c, budget), rest, budget)
  {
    hide Run, Do;
    assert [a, b, c] + rest == [a] + ([b] + ([c] + rest));
    RunCons(s, a, [b] + ([c] + rest), budget);
    RunCons(Do(s, a, budget), b, [c] + rest, budget);
    RunCons(Do(Do(s, a, budget), b, budget), c, rest, budget);
  }

  lemma RunFour(s: Sys, a: Action, b: Action, c: Action, e: Action, budget: int)
    ensures Run(s, [a, b, c, e], budget) == Run(Do(Do(s, a, budget), b, budget), [c, e], budget)
  {
    hide Run, Do;
    assert [a, b, c, e] == [a] + ([b] + [c, e]);
    RunCons(s, a, [b] + [c, e], budget);
    RunCons(Do(s, a, budget), b, [c, e], budget);
  }

  lemma ShapeOfLoad(g: Sys, d: DeliveryId, budget: int)
    requires g.At(0).Idle?
    ensures var t := Do(g, Load(0, d), budget);
            if d !in g.rows || g.rows[d].status.Delivered? then t == g
            else t.At(0) == Loaded(d, g.rows[d]) && t.rows == g.rows && t.active == g.active
  {
  }

  lemma ShapeOfCheck(g: Sys, d: DeliveryId, admitted: bool, budget: int)
    requires g.At(0).Loaded? && g.At(0).d == d
    ensures var t := Do(g, CheckWebhook(0, admitted), budget);
            var seen := g.At(0).seen;
            && t.rows == g.rows && t.active == g.active
            && t.At(0) == if seen.webhook !in g.active || !g.active[seen.webhook] then Inactive(d)
                          else if admitted then Admitted(d, seen) else Rejected(d)
  {
  }

  lemma ShapeOfWrites(g: Sys, d: DeliveryId, retryAt: int, budget: int)
    requires d in g.rows && (g.At(0) == Inactive(d) || g.At(0) == Rejected(d) || g.At(0).Admitted?)
    ensures var t := Do(Do(g, WriteInactive(0), budget), WriteRejected(0, retryAt), budget);
            && t.active == g.active
            && match g.At(0)
               case Inactive(_) => t.At(0).Idle? && t.rows == g.Write(d, Failed, g.rows[d].nextRetryAt).rows
               case Rejected(_) => t.At(0).Idle? && t.rows == g.Write(d, Pending, Some(retryAt)).rows
               case _ => t == g
  {
  }

  lemma ShapeOfClaim(g: Sys, d: DeliveryId, seen: Row, budget: int)
    requires g.At(0) == Admitted(d, seen)
    ensures var t := Do(g, Claim(0), budget);
            && t.active == g.active
            && (if CanClaim(g, d, seen)
                then t.At(0) == Claimed(d, seen.attempts + 1) &&
                     t.rows == g.rows[d := g.rows[d].(attempts := seen.attempts + 1)]
                else t.At(0).Idle? && t.rows == g.rows)
  {
  }

  lemma ShapeOfUnsafe(g: Sys, d: DeliveryId, n: nat, budget: int)
    requires g.At(0) == Claimed(d, n)
    ensures var t := Do(Do(g, FindUnsafe(0), budget), WriteUnsafe(0), budget);
            t.At(0).Idle? && t.active == g.active && t.rows == g.Write(d, Failed, None).rows
  {
  }

  lemma ShapeOfAnswer(g: Sys, d: DeliveryId, n: nat, answer: Answer, now: int, budget: int)
    requires g.At(0) == Claimed(d, n) && d in g.rows && n > 0
    ensures var t := Do(Do(g, Post(0, answer), budget), WriteAnswer(0, now), budget);
            && t.active == g.active
            && t.At(0) == (if answer.Gone? then Disabling(g.rows[d].webhook) else Idle)
            && t.rows == (match answer
                          case Accepted => g.Write(d, Delivered, None).rows
                          case Gone => g.Write(d, Failed, None).rows
                          case Refused => if n >= budget then g.Write(d, Failed, None).rows
                                          else g.Write(d, Pending, Some(now + BackoffMs(n))).rows)
  {
  }

  lemma ShapeOfSweep(g: Sys, webhook: WebhookId, budget: int)
    requires g.At(0) == Disabling(webhook)
    ensures var t := Do(Do(g, Disable(0), budget), Sweep(0), budget);
            && t.At(0).Idle? && t.rows == SweepRows(g.rows, webhook)
            && t.active == if webhook in g.active then g.active[webhook := false] else g.active
  {
  }
}
