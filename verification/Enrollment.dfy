/**
 * One-time enrollment tokens: minting, acceptance, the consume-and-upsert
 * transaction and the purge sweep, interleaved over any number of requests.
 */
module Enrollment {
  import opened Text

  type Jti = string
  type Aid = string
  type Digest = string
  type Request = nat

  const TOKEN_LIFETIME_SECS := 300

  /** The claims of a token this service signed; `exp` is in seconds. */
  datatype Payload = Payload(sub: Aid, exp: int, jti: Jti, msh: Digest)

  datatype TokenError = Expired | WrongSubject | MissingJti | Unbound | WrongManifest

  datatype Validation = Valid(payload: Payload) | Invalid(error: TokenError)

  /** `Math.floor(Date.now() / 1000)` */
  function Seconds(nowMs: int): int { nowMs / 1000 }

  /** `validateToken` once signature and scope have been checked. */
  function ValidateToken(payload: Payload, aid: Aid, digest: Digest, nowMs: int): Validation {
    if Seconds(nowMs) > payload.exp then Invalid(Expired)
    else if payload.sub != aid then Invalid(WrongSubject)
    else if payload.jti == "" then Invalid(MissingJti)
    else if payload.msh == "" then Invalid(Unbound)
    else if payload.msh != digest then Invalid(WrongManifest)
    else Valid(payload)
  }

  /** The token's last acceptable millisecond is the end of its expiry second. */
  lemma AcceptedUntil(payload: Payload, nowMs: int)
    ensures ValidateToken(payload, payload.sub, payload.msh, nowMs) != Invalid(Expired) <==>
            nowMs < (payload.exp + 1) * 1000
  {
  }

  /** Exactly which tokens are accepted: in time, for their subject, bound to the manifest presented. */
  lemma AcceptedIff(payload: Payload, aid: Aid, digest: Digest, nowMs: int)
    ensures ValidateToken(payload, aid, digest, nowMs).Valid? <==>
            && nowMs < (payload.exp + 1) * 1000 && aid == payload.sub && digest == payload.msh
            && payload.jti != "" && payload.msh != ""
    ensures ValidateToken(payload, aid, digest, nowMs).Valid? ==>
              ValidateToken(payload, aid, digest, nowMs) == Valid(payload)
  {
  }

  /** A request between accepting a token and its transaction. */
  datatype Held = Held(jti: Jti, aid: Aid, digest: Digest)

  datatype Sys = Sys(
    clock: int, minted: map<Jti, Payload>, held: map<Request, Held>,
    jtis: map<Jti, int>, agents: map<Aid, Digest>, commits: seq<Held>, purged: seq<Jti>)

  const START := Sys(0, map[], map[], map[], map[], [], [])

  datatype Step =
    | Tick(now: int)
    | Mint(jti: Jti, aid: Aid, digest: Digest)
    | Accept(r: Request, jti: Jti, aid: Aid, digest: Digest)
    | GiveUp(r: Request)
    | Register(r: Request, fault: bool)
    | Purge(at: int, victims: seq<Jti>)

  /** The consume and the upsert commit together or not at all. */
  function DoRegister(s: Sys, r: Request, fault: bool): Sys
    requires r in s.held
  {
    var h := s.held[r];
    var done := s.(held := s.held - {r});
    if h.jti in s.jtis || fault || h.jti !in s.minted then done
    else done.(jtis := s.jtis[h.jti := s.minted[h.jti].exp * 1000],
               agents := s.agents[h.aid := h.digest], commits := s.commits + [h])
  }

  function PurgeOne(s: Sys, at: int, j: Jti): Sys {
    if j in s.jtis && s.jtis[j] < at then s.(jtis := s.jtis - {j}, purged := s.purged + [j]) else s
  }

  /** Deletes expired rows, no more than those listed. */
  function DoPurge(s: Sys, at: int, victims: seq<Jti>): Sys
    decreases |victims|
  {
    if victims == [] then s else DoPurge(PurgeOne(s, at, victims[0]), at, victims[1..])
  }

  function Do(s: Sys, step: Step): Sys {
    match step
    case Tick(now) => if now >= s.clock then s.(clock := now) else s
    case Mint(jti, aid, digest) =>
      if jti in s.minted || jti == "" || digest == "" then s
      else s.(minted := s.minted[jti := Payload(aid, Seconds(s.clock) + TOKEN_LIFETIME_SECS, jti, digest)])
    case Accept(r, jti, aid, digest) =>
      if r !in s.held && jti in s.minted && ValidateToken(s.minted[jti], aid, digest, s.clock).Valid?
      then s.(held := s.held[r := Held(jti, aid, digest)]) else s
    case GiveUp(r) => s.(held := s.held - {r})
    case Register(r, fault) => if r in s.held then DoRegister(s, r, fault) else s
    case Purge(at, victims) => if at <= s.clock then DoPurge(s, at, victims) else s
  }

  function Run(s: Sys, steps: seq<Step>): Sys
    decreases |steps|
  {
    if steps == [] then s else Run(Do(s, steps[0]), steps[1..])
  }

  function Commits(log: seq<Held>, jti: Jti): nat {
    if log == [] then 0 else Commits(log[..|log| - 1], jti) + if log[|log| - 1].jti == jti then 1 else 0
  }

  function Purges(log: seq<Jti>, jti: Jti): nat {
    if log == [] then 0 else Purges(log[..|log| - 1], jti) + if log[|log| - 1] == jti then 1 else 0
  }

  // ---------------------------------------------------------------- commits against purges

  /** What every reachable state satisfies, for one token. */
  ghost predicate Balanced(s: Sys, jti: Jti) {
    && Commits(s.commits, jti) == Purges(s.purged, jti) + (if jti in s.jtis then 1 else 0)
    && (jti in s.jtis ==> jti in s.minted && s.jtis[jti] == s.minted[jti].exp * 1000)
    && (jti in s.minted ==> s.minted[jti].jti == jti != "" && s.minted[jti].msh != "")
    && (forall r | r in s.held && s.held[r].jti == jti ::
          jti in s.minted && s.held[r].aid == s.minted[jti].sub && s.held[r].digest == s.minted[jti].msh)
    && (forall c | c in s.commits && c.jti == jti ::
          jti in s.minted && c.aid == s.minted[jti].sub && c.digest == s.minted[jti].msh)
  }

  lemma {:induction false} PurgeKeepsBalance(s: Sys, at: int, victims: seq<Jti>, jti: Jti)
    requires Balanced(s, jti)
    ensures var t := DoPurge(s, at, victims);
            && Balanced(t, jti)
            && t.clock == s.clock && t.minted == s.minted && t.held == s.held && t.commits == s.commits
    decreases |victims|
  {
    if victims != [] {
      PurgeOneKeepsBalance(s, at, victims[0], jti);
      assert DoPurge(s, at, victims) == DoPurge(PurgeOne(s, at, victims[0]), at, victims[1..]);
      hide Balanced, PurgeOne, DoPurge;
      PurgeKeepsBalance(PurgeOne(s, at, victims[0]), at, victims[1..], jti);
    }
  }

  lemma PurgeOneKeepsBalance(s: Sys, at: int, victim: Jti, jti: Jti)
    requires Balanced(s, jti)
    ensures var t := PurgeOne(s, at, victim);
            && Balanced(t, jti)
            && t.clock == s.clock && t.minted == s.minted && t.held == s.held && t.commits == s.commits
  {
    hide Commits, Purges;
    PurgesPush(s.purged, victim, jti);
  }

  lemma PurgesPush(log: seq<Jti>, victim: Jti, jti: Jti)
    ensures Purges(log + [victim], jti) == Purges(log, jti) + if victim == jti then 1 else 0
  {
    assert (log + [victim])[..|log|] == log;
  }

  lemma RegisterKeepsBalance(s: Sys, r: Request, fault: bool, jti: Jti)
    requires Balanced(s, jti) && r in s.held
    ensures Balanced(DoRegister(s, r, fault), jti)
  {
    hide Commits, Purges;
    CommitsPush(s.commits, s.held[r], jti);
  }

  lemma CommitsPush(log: seq<Held>, h: Held, jti: Jti)
    ensures Commits(log + [h], jti) == Commits(log, jti) + if h.jti == jti then 1 else 0
  {
    assert (log + [h])[..|log|] == log;
  }

  lemma AcceptKeepsBalance(s: Sys, step: Step, jti: Jti)
    requires Balanced(s, jti) && (step.Mint? || step.Accept?)
    ensures Balanced(Do(s, step), jti)
  {
    hide Commits, Purges;
  }

  lemma StepKeepsBalance(s: Sys, step: Step, jti: Jti)
    requires Balanced(s, jti)
    ensures Balanced(Do(s, step), jti)
  {
    hide ValidateToken, DoRegister, Commits, Purges, DoPurge;
    match step
    case Purge(at, victims) => PurgeKeepsBalance(s, at, victims, jti);
    case Register(r, fault) =>
      if r in s.held {
        RegisterKeepsBalance(s, r, fault, jti);
      }
    case Mint(_, _, _) => AcceptKeepsBalance(s, step, jti);
    case Accept(_, _, _, _) => AcceptKeepsBalance(s, step, jti);
    case _ =>
  }

  lemma {:induction false} RunKeepsBalance(s: Sys, steps: seq<Step>, jti: Jti)
    requires Balanced(s, jti)
    ensures Balanced(Run(s, steps), jti)
    decreases |steps|
  {
    if steps != [] {
      StepKeepsBalance(s, steps[0], jti);
      RunKeepsBalance(Do(s, steps[0]), steps[1..], jti);
    }
  }

  /**
   * In every run: registrations committed with a token exceed the purges of
   * its jti by one exactly while its row is there, and each of them is for the
   * AID and the manifest the token was minted for.
   */
  lemma CommitsMatchPurges(steps: seq<Step>, jti: Jti)
    ensures var s := Run(START, steps);
            && Commits(s.commits, jti) == Purges(s.purged, jti) + (if jti in s.jtis then 1 else 0)
            && (forall c | c in s.commits && c.jti == jti ::
                  jti in s.minted && c.aid == s.minted[jti].sub && c.digest == s.minted[jti].msh)
  {
    RunKeepsBalance(START, steps, jti);
  }

  // ---------------------------------------------------------------- at most once

  /** Some request holds the token, or one could still accept it. */
  ghost predicate Live(s: Sys, jti: Jti) {
    || (exists r :: r in s.held && s.held[r].jti == jti)
    || (jti in s.minted && Seconds(s.clock) <= s.minted[jti].exp)
  }

  /** A minted token that is dead stays dead. */
  lemma DeadStaysDead(s: Sys, step: Step, jti: Jti)
    requires Balanced(s, jti) && jti in s.minted && !Live(s, jti)
    ensures jti in Do(s, step).minted && !Live(Do(s, step), jti)
    ensures Commits(Do(s, step).commits, jti) == Commits(s.commits, jti)
  {
    hide Balanced, Purges, DoPurge;
    match step
    case Purge(at, victims) => PurgeKeepsBalance(s, at, victims, jti);
    case Register(r, fault) =>
      if r in s.held {
        OtherTokenCommits(s, r, fault, jti);
      }
    case _ =>
  }

  lemma OtherTokenCommits(s: Sys, r: Request, fault: bool, jti: Jti)
    requires r in s.held && s.held[r].jti != jti
    ensures Commits(DoRegister(s, r, fault).commits, jti) == Commits(s.commits, jti)
    ensures jti in s.minted ==> jti in DoRegister(s, r, fault).minted
  {
    assert (s.commits + [s.held[r]])[..|s.commits|] == s.commits;
  }

  lemma {:induction false} DeadNeverCommits(s: Sys, steps: seq<Step>, jti: Jti)
    requires Balanced(s, jti) && jti in s.minted && !Live(s, jti)
    ensures Commits(Run(s, steps).commits, jti) == Commits(s.commits, jti)
    decreases |steps|
  {
    if steps != [] {
      StepKeepsBalance(s, steps[0], jti);
      DeadStaysDead(s, steps[0], jti);
      DeadNeverCommits(Do(s, steps[0]), steps[1..], jti);
    }
  }

  /** No purge removes the row of a live token. */
  ghost predicate PurgedOnlyDead(s: Sys, steps: seq<Step>, jti: Jti)
    decreases |steps|
  {
    steps != [] ==>
      && (jti in s.jtis && jti !in Do(s, steps[0]).jtis ==> !Live(s, jti))
      && PurgedOnlyDead(Do(s, steps[0]), steps[1..], jti)
  }

  lemma {:induction false} OnceFrom(s: Sys, steps: seq<Step>, jti: Jti)
    requires Balanced(s, jti) && PurgedOnlyDead(s, steps, jti)
    requires Commits(s.commits, jti) == 0 || jti in s.jtis
    requires Commits(s.commits, jti) <= 1
    ensures Commits(Run(s, steps).commits, jti) <= 1
    decreases |steps|
  {
    if steps != [] {
      var next := Do(s, steps[0]);
      StepKeepsBalance(s, steps[0], jti);
      if jti in s.jtis && jti !in next.jtis {
        DeadNeverCommits(s, steps, jti);
      } else {
        CommitStep(s, steps[0], jti);
        OnceFrom(next, steps[1..], jti);
      }
    }
  }

  lemma CommitStep(s: Sys, step: Step, jti: Jti)
    requires Balanced(s, jti) && (jti in s.jtis ==> jti in Do(s, step).jtis)
    ensures Commits(Do(s, step).commits, jti) ==
            Commits(s.commits, jti) + if jti in Do(s, step).jtis && jti !in s.jtis then 1 else 0
  {
    match step
    case Purge(at, victims) => PurgeKeepsBalance(s, at, victims, jti); PurgeShrinks(s, at, victims);
    case Register(r, _) =>
      if r in s.held {
        assert (s.commits + [s.held[r]])[..|s.commits|] == s.commits;
      }
    case _ =>
  }

  lemma {:induction false} PurgeShrinks(s: Sys, at: int, victims: seq<Jti>)
    ensures DoPurge(s, at, victims).jtis.Keys <= s.jtis.Keys
    decreases |victims|
  {
    if victims != [] {
      PurgeShrinks(PurgeOne(s, at, victims[0]), at, victims[1..]);
    }
  }

  /** At most one registration commits per token if no purge removes the row of a live token. */
  lemma AtMostOneCommit(steps: seq<Step>, jti: Jti)
    requires PurgedOnlyDead(START, steps, jti)
    ensures Commits(Run(START, steps).commits, jti) <= 1
  {
    OnceFrom(START, steps, jti);
  }

  lemma FreshRequest(used: set<Request>) returns (r: Request)
    ensures r !in used
  {
    r := 0;
    var rest := used;
    while r in used
      invariant rest <= used
      invariant forall x | x in used && x >= r :: x in rest
      decreases rest
    {
      assert r in rest;
      rest := rest - {r};
      r := r + 1;
    }
  }

  /**
   * The hypothesis is exact: in a state whose token has no row, another
   * registration can commit if and only if the token is live.
   */
  lemma CanCommitIffLive(s: Sys, jti: Jti)
    requires Balanced(s, jti) && jti in s.minted && jti !in s.jtis
    ensures (exists steps :: Commits(Run(s, steps).commits, jti) > Commits(s.commits, jti)) <==> Live(s, jti)
  {
    if Live(s, jti) {
      var steps := NextCommit(s, jti);
    } else {
      forall steps ensures Commits(Run(s, steps).commits, jti) <= Commits(s.commits, jti) {
        DeadNeverCommits(s, steps, jti);
      }
    }
  }

  lemma NextCommit(s: Sys, jti: Jti) returns (steps: seq<Step>)
    requires Balanced(s, jti) && jti in s.minted && jti !in s.jtis && Live(s, jti)
    ensures Commits(Run(s, steps).commits, jti) > Commits(s.commits, jti)
  {
    if r :| r in s.held && s.held[r].jti == jti {
      steps := [Register(r, false)];
      RegisterCommits(s, r);
    } else {
      var r := FreshRequest(s.held.Keys);
      var accept := Accept(r, jti, s.minted[jti].sub, s.minted[jti].msh);
      var t := Do(s, accept);
      steps := [accept, Register(r, false)];
      RegisterCommits(t, r);
      assert steps[1..] == [Register(r, false)];
      hide Commits;
      assert Run(s, steps) == Run(t, [Register(r, false)]);
    }
  }

  lemma RegisterCommits(s: Sys, r: Request)
    requires r in s.held && s.held[r].jti in s.minted && s.held[r].jti !in s.jtis
    ensures Commits(Run(s, [Register(r, false)]).commits, s.held[r].jti) == Commits(s.commits, s.held[r].jti) + 1
  {
    var t := Do(s, Register(r, false));
    assert [Register(r, false)][1..] == [];
    assert Run(s, [Register(r, false)]) == Run(t, []) == t;
    assert t.commits[..|s.commits|] == s.commits;
  }

  /**
   * The two clocks: the sweep compares milliseconds with `<`, acceptance
   * floors to seconds with `>`. A row purged inside its expiry second leaves
   * its token live; from the next second on it does not.
   */
  lemma PurgeWindow(s: Sys, at: int, jti: Jti)
    requires Balanced(s, jti) && jti in s.jtis && s.jtis[jti] < at <= s.clock
    requires forall r | r in s.held :: s.held[r].jti != jti
    ensures var t := Do(s, Purge(at, [jti]));
            && jti !in t.jtis
            && (Live(t, jti) <==> s.clock < (s.minted[jti].exp + 1) * 1000)
  {
    var t := Do(s, Purge(at, [jti]));
    assert [jti][1..] == [];
    assert t == DoPurge(PurgeOne(s, at, jti), at, []);
  }

  /** The window in use: purged half a second into the expiry second, the token registers a second time. */
  const PURGED_IN_WINDOW: seq<Step> :=
    [Mint("j", "a", "d"), Accept(0, "j", "a", "d"), Register(0, false),
     Tick(300_500), Purge(300_500, ["j"]), Accept(1, "j", "a", "d"), Register(1, false)]

  const HELD_ONCE := Held("j", "a", "d")
  const ISSUED := map["j" := Payload("a", 300, "j", "d")]

  /** Registered once, at time zero. */
  const REGISTERED :=
    Sys(0, ISSUED, map[], map["j" := 300_000], map["a" := "d"], [HELD_ONCE], [])

  /** Half a second into the expiry second, the row purged. */
  const PURGED :=
    Sys(300_500, ISSUED, map[], map[], map["a" := "d"], [HELD_ONCE], ["j"])

  lemma FirstRegistration()
    ensures Do(Do(Do(START, Mint("j", "a", "d")), Accept(0, "j", "a", "d")), Register(0, false)) == REGISTERED
  {
    var s1 := START.(minted := ISSUED);
    assert Do(START, Mint("j", "a", "d")) == s1;
    assert Do(s1, Accept(0, "j", "a", "d")) == s1.(held := map[0 := HELD_ONCE]);
  }

  lemma PurgeInWindow()
    ensures Do(Do(REGISTERED, Tick(300_500)), Purge(300_500, ["j"])) == PURGED
  {
    var s4 := REGISTERED.(clock := 300_500);
    assert ["j"][1..] == [];
    assert DoPurge(s4, 300_500, ["j"]) == DoPurge(PURGED, 300_500, []);
  }

  lemma SecondRegistration()
    ensures Do(Do(PURGED, Accept(1, "j", "a", "d")), Register(1, false)).commits == [HELD_ONCE, HELD_ONCE]
  {
    assert Do(PURGED, Accept(1, "j", "a", "d")) == PURGED.(held := map[1 := HELD_ONCE]);
  }

  lemma SecondCommit()
    ensures Commits(Run(START, PURGED_IN_WINDOW).commits, "j") == 2
    ensures !PurgedOnlyDead(START, PURGED_IN_WINDOW, "j")
  {
    hide Do, Run, PurgedOnlyDead;
    FirstRegistration();
    PurgeInWindow();
    SecondRegistration();
    RunSeven(START, PURGED_IN_WINDOW);
    assert [HELD_ONCE, HELD_ONCE][..1] == [HELD_ONCE] && [HELD_ONCE][..0] == [];
    assert Commits([HELD_ONCE], "j") == 1 && Commits([HELD_ONCE, HELD_ONCE], "j") == 2;
    if PurgedOnlyDead(START, PURGED_IN_WINDOW, "j") {
      AtMostOneCommit(PURGED_IN_WINDOW, "j");
    }
  }

  lemma RunSeven(s: Sys, steps: seq<Step>)
    requires |steps| == 7
    ensures Run(s, steps) ==
            Do(Do(Do(Do(Do(Do(Do(s, steps[0]), steps[1]), steps[2]), steps[3]), steps[4]), steps[5]), steps[6])
  {
    hide Do;
    var s3 := Do(Do(Do(s, steps[0]), steps[1]), steps[2]);
    assert steps[1..][1..] == steps[2..] && steps[2..][1..] == steps[3..] && steps[3..][1..] == steps[4..];
    assert Run(s, steps) == Run(Do(s, steps[0]), steps[1..]) == Run(Do(Do(s, steps[0]), steps[1]), steps[2..]);
    assert Run(s, steps) == Run(s3, steps[3..]);
    assert steps[4..][1..] == steps[5..] && steps[5..][1..] == steps[6..] && steps[6..][1..] == [];
    var s4 := Do(s3, steps[3]);
    var s5 := Do(s4, steps[4]);
    assert Run(s3, steps[3..]) == Run(s4, steps[4..]) == Run(s5, steps[5..]);
    assert Run(s5, steps[5..]) == Run(Do(s5, steps[5]), steps[6..]);
    assert Run(Do(s5, steps[5]), steps[6..]) == Run(Do(Do(s5, steps[5]), steps[6]), []);
  }

  // ---------------------------------------------------------------- what else a run leaves

  /**
   * A new token is accepted, for the AID and the manifest it was minted for,
   * from then until the end of the second 300 seconds after the one it was
   * minted in.
   */
  lemma TokenLives(s: Sys, jti: Jti, aid: Aid, digest: Digest, now: int, r: Request, other: Aid, presented: Digest)
    requires jti !in s.minted && jti != "" && digest != "" && now >= s.clock && r !in s.held
    ensures var t := Do(Do(Do(s, Mint(jti, aid, digest)), Tick(now)), Accept(r, jti, other, presented));
            && (r in t.held <==> other == aid && presented == digest && now < (s.clock / 1000 + 301) * 1000)
            && (r in t.held ==> t.held == s.held[r := Held(jti, aid, digest)])
  {
    AcceptedIff(Payload(aid, Seconds(s.clock) + 300, jti, digest), other, presented, now);
    hide ValidateToken;
  }

  /** A purge removes the rows listed that expired before `at`, and no others. */
  lemma {:induction false} PurgeIsExact(s: Sys, at: int, victims: seq<Jti>)
    ensures var t := DoPurge(s, at, victims);
            && (forall j :: j in t.jtis <==> j in s.jtis && !(j in victims && s.jtis[j] < at))
            && (forall j | j in t.jtis :: t.jtis[j] == s.jtis[j])
            && t.agents == s.agents
    decreases |victims|
  {
    if victims != [] {
      var t := PurgeOne(s, at, victims[0]);
      PurgeIsExact(t, at, victims[1..]);
      assert forall j :: j in victims <==> j == victims[0] || j in victims[1..];
    }
  }

  /** The manifest last registered for an AID. */
  function LastFor(log: seq<Held>, aid: Aid): Option<Digest> {
    if log == [] then None
    else if log[|log| - 1].aid == aid then Some(log[|log| - 1].digest)
    else LastFor(log[..|log| - 1], aid)
  }

  lemma RegisterKeepsAgents(s: Sys, r: Request, fault: bool, aid: Aid)
    requires r in s.held && LastFor(s.commits, aid) == if aid in s.agents then Some(s.agents[aid]) else None
    ensures var t := DoRegister(s, r, fault);
            LastFor(t.commits, aid) == if aid in t.agents then Some(t.agents[aid]) else None
  {
    assert (s.commits + [s.held[r]])[..|s.commits|] == s.commits;
  }

  lemma StepKeepsAgents(s: Sys, step: Step, aid: Aid)
    requires LastFor(s.commits, aid) == if aid in s.agents then Some(s.agents[aid]) else None
    ensures var t := Do(s, step); LastFor(t.commits, aid) == if aid in t.agents then Some(t.agents[aid]) else None
  {
    hide ValidateToken, DoPurge, DoRegister, LastFor;
    match step
    case Purge(at, victims) => PurgeIsExact(s, at, victims); PurgeKeepsCommits(s, at, victims);
    case Register(r, fault) =>
      if r in s.held {
        RegisterKeepsAgents(s, r, fault, aid);
      }
    case _ =>
  }

  lemma {:induction false} PurgeKeepsCommits(s: Sys, at: int, victims: seq<Jti>)
    ensures DoPurge(s, at, victims).commits == s.commits
    decreases |victims|
  {
    if victims != [] {
      PurgeKeepsCommits(PurgeOne(s, at, victims[0]), at, victims[1..]);
    }
  }

  lemma {:induction false} RunKeepsAgents(s: Sys, steps: seq<Step>, aid: Aid)
    requires LastFor(s.commits, aid) == if aid in s.agents then Some(s.agents[aid]) else None
    ensures var t := Run(s, steps); LastFor(t.commits, aid) == if aid in t.agents then Some(t.agents[aid]) else None
    decreases |steps|
  {
    hide Do, LastFor;
    if steps != [] {
      StepKeepsAgents(s, steps[0], aid);
      RunKeepsAgents(Do(s, steps[0]), steps[1..], aid);
    }
  }

  /** In every run an AID is registered if and only if some commit was for it, with the manifest of the last one. */
  lemma AgentIsLastCommit(steps: seq<Step>, aid: Aid)
    ensures var s := Run(START, steps);
            LastFor(s.commits, aid) == if aid in s.agents then Some(s.agents[aid]) else None
  {
    RunKeepsAgents(START, steps, aid);
  }

  // ---------------------------------------------------------------- the tables

  /** The registry's two tables. */
  class Registry {
    var jtis: map<Jti, int>
    var agents: map<Aid, Digest>

    constructor ()
      ensures jtis == map[] && agents == map[]
    {
      jtis, agents := map[], map[];
    }

    /** Insert if absent; whether this call inserted. */
    method ConsumeEnrollmentJti(jti: Jti, exp: int) returns (first: bool)
      modifies this`jtis
      ensures first <==> jti !in old(jtis)
      ensures jtis == if first then old(jtis)[jti := exp * 1000] else old(jtis)
    {
      first := jti !in jtis;
      if first {
        jtis := jtis[jti := exp * 1000];
      }
    }

    method UpsertAgent(aid: Aid, manifest: Digest)
      modifies this`agents
      ensures agents == old(agents)[aid := manifest]
    {
      agents := agents[aid := manifest];
    }

    /** One transaction. A faulting upsert rolls the consume back. */
    method RegisterConsumingJti(jti: Jti, exp: int, aid: Aid, manifest: Digest, fault: bool)
      returns (registered: Option<bool>)
      modifies this
      ensures registered == if jti in old(jtis) then Some(false) else if fault then None else Some(true)
      ensures registered == Some(true) ==>
                jtis == old(jtis)[jti := exp * 1000] && agents == old(agents)[aid := manifest]
      ensures registered != Some(true) ==> jtis == old(jtis) && agents == old(agents)
    {
      var savedJtis := jtis;
      var first := ConsumeEnrollmentJti(jti, exp);
      if !first {
        return Some(false);
      }
      if fault {
        jtis := savedJtis;
        return None;
      }
      UpsertAgent(aid, manifest);
      return Some(true);
    }
  }
}
