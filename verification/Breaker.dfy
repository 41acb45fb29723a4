/** The per-webhook circuit breaker: three states, timed probes, stale outcomes. */
module Breaker {
  import opened Text

  datatype State = Closed | Open | HalfOpen

  datatype Entry = Entry(state: State, failures: int, successes: int, openedAt: Option<int>, probeInFlight: bool)

  datatype Config = Config(failureThreshold: int, resetTimeoutMs: int, successThresholdToClose: int)

  datatype Snapshot =
    Snapshot(state: State, failures: int, successes: int, openedAt: Option<int>, nextProbeAt: Option<int>)

  const NEW_ENTRY := Entry(Closed, 0, 0, None, false)

  /** `shouldAttempt`: the new entry and whether the attempt is admitted. */
  function Should(e: Entry, cfg: Config, now: int): (Entry, bool) {
    match e.state
    case Closed => (e, true)
    case Open =>
      if e.openedAt.Some? && now - e.openedAt.value >= cfg.resetTimeoutMs
      then (e.(state := HalfOpen, probeInFlight := true), true)
      else (e, false)
    case HalfOpen => if e.probeInFlight then (e, false) else (e.(probeInFlight := true), true)
  }

  function Success(e: Entry, cfg: Config): Entry {
    var e1 := e.(probeInFlight := false);
    if e.state.HalfOpen? then
      var e2 := e1.(successes := e.successes + 1);
      if e2.successes >= cfg.successThresholdToClose then e2.(state := Closed, failures := 0, openedAt := None) else e2
    else e1.(failures := 0, successes := 0)
  }

  function Failure(e: Entry, cfg: Config, now: int): Entry {
    var e1 := e.(probeInFlight := false, successes := 0, failures := e.failures + 1);
    if (e.state.Closed? && e1.failures >= cfg.failureThreshold) || e.state.HalfOpen?
    then e1.(state := Open, openedAt := Some(now))
    else e1
  }

  function SnapshotOf(e: Entry, cfg: Config): Snapshot {
    Snapshot(e.state, e.failures, e.successes, e.openedAt,
             if e.state.Open? && e.openedAt.Some? then Some(e.openedAt.value + cfg.resetTimeoutMs) else None)
  }

  /** The entry a method sees: a webhook not seen before starts closed. */
  function Lookup(states: map<string, Entry>, id: string): Entry {
    if id in states then states[id] else NEW_ENTRY
  }

  class WebhookCircuitBreaker {
    var states: map<string, Entry>
    const config: Config

    constructor (config: Config)
      ensures states == map[] && this.config == config
    {
      this.config := config;
      states := map[];
    }

    /** `entry()` creates what it does not find. */
    method EntryFor(id: string) returns (e: Entry)
      modifies this`states
      ensures e == Lookup(old(states), id) && states == old(states)[id := e]
    {
      if id !in states {
        states := states[id := NEW_ENTRY];
      }
      e := states[id];
      assert states == old(states)[id := e];
    }

    method ShouldAttempt(id: string, now: int) returns (admitted: bool)
      modifies this`states
      ensures states == old(states)[id := Should(Lookup(old(states), id), config, now).0]
      ensures admitted == Should(Lookup(old(states), id), config, now).1
    {
      var e := EntryFor(id);
      if e.state.Closed? {
        return true;
      }
      if e.state.Open? {
        if e.openedAt.Some? && now - e.openedAt.value >= config.resetTimeoutMs {
          states := states[id := e.(state := HalfOpen, probeInFlight := true)];
          return true;
        }
        return false;
      }
      if e.probeInFlight {
        return false;
      }
      states := states[id := e.(probeInFlight := true)];
      return true;
    }

    method RecordSuccess(id: string)
      modifies this`states
      ensures states == old(states)[id := Success(Lookup(old(states), id), config)]
    {
      var e := EntryFor(id);
      e := e.(probeInFlight := false);
      if e.state.HalfOpen? {
        e := e.(successes := e.successes + 1);
        if e.successes >= config.successThresholdToClose {
          e := e.(state := Closed, failures := 0, openedAt := None);
        }
      } else {
        e := e.(failures := 0, successes := 0);
      }
      states := states[id := e];
    }

    method RecordFailure(id: string, now: int)
      modifies this`states
      ensures states == old(states)[id := Failure(Lookup(old(states), id), config, now)]
    {
      var e := EntryFor(id);
      e := e.(probeInFlight := false, successes := 0, failures := e.failures + 1);
      if e.state.Closed? && e.failures >= config.failureThreshold {
        e := e.(state := Open, openedAt := Some(now));
      } else if e.state.HalfOpen? {
        e := e.(state := Open, openedAt := Some(now));
      }
      states := states[id := e];
    }

    method Reset(id: string)
      modifies this`states
      ensures states == old(states)[id := NEW_ENTRY]
    {
      states := states[id := NEW_ENTRY];
    }

    method GetSnapshot(id: string) returns (s: Snapshot)
      modifies this`states
      ensures states == old(states)[id := Lookup(old(states), id)]
      ensures s == SnapshotOf(Lookup(old(states), id), config)
    {
      var e := EntryFor(id);
      var nextProbeAt := None;
      if e.state.Open? && e.openedAt.Some? {
        nextProbeAt := Some(e.openedAt.value + config.resetTimeoutMs);
      }
      s := Snapshot(e.state, e.failures, e.successes, e.openedAt, nextProbeAt);
    }
  }

  // ---------------------------------------------------------------- runs on one webhook

  /** Outcomes may be stale: they arrive whenever an earlier attempt ends. */
  datatype Event = Attempt(at: int) | Succeeded(at: int) | Failed(at: int) | ManualReset(at: int)

  function Next(e: Entry, cfg: Config, event: Event): Entry {
    match event
    case Attempt(at) => Should(e, cfg, at).0
    case Succeeded(_) => Success(e, cfg)
    case Failed(at) => Failure(e, cfg, at)
    case ManualReset(_) => NEW_ENTRY
  }

  function After(e: Entry, cfg: Config, events: seq<Event>): Entry
    decreases |events|
  {
    if events == [] then e else After(Next(e, cfg, events[0]), cfg, events[1..])
  }

  /** What every reachable entry satisfies. */
  predicate Coherent(e: Entry, cfg: Config) {
    && e.failures >= 0
    && (e.state.Closed? ==> e.failures < cfg.failureThreshold && e.openedAt.None?)
    && (!e.state.Closed? ==> e.openedAt.Some?)
    && (cfg.successThresholdToClose <= 1 && e.successes >= 0 && e.state.HalfOpen? ==> e.probeInFlight)
    && e.successes >= 0
  }

  lemma {:induction false} AlwaysCoherent(e: Entry, cfg: Config, events: seq<Event>)
    requires Coherent(e, cfg) && cfg.failureThreshold >= 1
    ensures Coherent(After(e, cfg, events), cfg)
    decreases |events|
  {
    if events != [] {
      AlwaysCoherent(Next(e, cfg, events[0]), cfg, events[1..]);
    }
  }

  /** Half open admits nothing more until an outcome or a reset arrives. */
  lemma {:induction false} OneProbeAtATime(e: Entry, cfg: Config, events: seq<Event>)
    requires e.state.HalfOpen? && e.probeInFlight
    requires forall i | 0 <= i < |events| :: events[i].Attempt?
    ensures After(e, cfg, events) == e && forall i | 0 <= i < |events| :: !Should(e, cfg, events[i].at).1
    decreases |events|
  {
    if events != [] {
      OneProbeAtATime(e, cfg, events[1..]);
      assert forall i | 0 < i < |events| :: events[i] == events[1..][i - 1];
    }
  }

  predicate Monotone(events: seq<Event>, from: int)
    decreases |events|
  {
    events == [] || (from <= events[0].at && Monotone(events[1..], events[0].at))
  }

  /** The circuit never closes and is never reset on the way. */
  predicate StaysTripped(e: Entry, cfg: Config, events: seq<Event>)
    decreases |events|
  {
    events == [] ||
    (!events[0].ManualReset? && !Next(e, cfg, events[0]).state.Closed? &&
     StaysTripped(Next(e, cfg, events[0]), cfg, events[1..]))
  }

  /** When attempts were admitted. */
  function Probes(e: Entry, cfg: Config, events: seq<Event>): seq<int>
    decreases |events|
  {
    if events == [] then []
    else
      (if events[0].Attempt? && Should(e, cfg, events[0].at).1 then [events[0].at] else [])
      + Probes(Next(e, cfg, events[0]), cfg, events[1..])
  }

  /** Consecutive probes are at least a reset timeout apart, the first that long after `since`. */
  predicate Spaced(probes: seq<int>, since: int, gap: int)
    decreases |probes|
  {
    probes == [] || (probes[0] - since >= gap && Spaced(probes[1..], probes[0], gap))
  }

  /**
   * `since` is the last opening or probe: an open circuit counts from no
   * earlier, a half-open one has its probe out.
   */
  predicate Tripped(e: Entry, since: int, now: int) {
    && since <= now
    && !e.state.Closed?
    && (e.state.Open? ==> e.openedAt.Some? && e.openedAt.value >= since)
    && (e.state.HalfOpen? ==> e.probeInFlight)
    && e.successes >= 0
  }

  lemma {:induction false} ProbesAreSpaced(e: Entry, cfg: Config, events: seq<Event>, since: int, now: int)
    requires cfg.successThresholdToClose <= 1
    requires Tripped(e, since, now) && Monotone(events, now) && StaysTripped(e, cfg, events)
    ensures Spaced(Probes(e, cfg, events), since, cfg.resetTimeoutMs)
    decreases |events|
  {
    if events != [] {
      var event := events[0];
      var next := Next(e, cfg, event);
      var rest := Probes(next, cfg, events[1..]);
      if event.Attempt? && Should(e, cfg, event.at).1 {
        ProbesAreSpaced(next, cfg, events[1..], event.at, event.at);
        assert ([event.at] + rest)[1..] == rest;
      } else {
        ProbesAreSpaced(next, cfg, events[1..], since, event.at);
        assert [] + rest == rest;
      }
    }
  }

  lemma {:induction false} SpacedSpan(probes: seq<int>, since: int, gap: int, i: nat)
    requires Spaced(probes, since, gap) && i < |probes|
    ensures probes[i] - since >= (i + 1) * gap
    ensures probes[i] - probes[0] >= i * gap
    decreases |probes|
  {
    if i > 0 {
      SpacedSpan(probes[1..], probes[0], gap, i - 1);
    }
  }

  /**
   * Between an opening and the next closing or reset, the first admitted
   * attempt comes at least one reset timeout after the opening and k of them
   * span at least k - 1 timeouts, whatever stale outcomes arrive meanwhile.
   */
  lemma ProbeSpacing(e: Entry, cfg: Config, openedAt: int, events: seq<Event>)
    requires cfg.successThresholdToClose <= 1 && e.successes >= 0
    requires e.state.Open? && e.openedAt == Some(openedAt)
    requires Monotone(events, openedAt) && StaysTripped(e, cfg, events)
    ensures var probes := Probes(e, cfg, events);
            probes != [] ==>
              && probes[0] - openedAt >= cfg.resetTimeoutMs
              && probes[|probes| - 1] - probes[0] >= (|probes| - 1) * cfg.resetTimeoutMs
  {
    ProbesAreSpaced(e, cfg, events, openedAt, openedAt);
    var probes := Probes(e, cfg, events);
    if probes != [] {
      SpacedSpan(probes, openedAt, cfg.resetTimeoutMs, |probes| - 1);
    }
  }

  lemma {:induction false} SuccessesStay(e: Entry, cfg: Config, events: seq<Event>)
    requires e.successes >= 0
    ensures After(e, cfg, events).successes >= 0
    decreases |events|
  {
    if events != [] {
      SuccessesStay(Next(e, cfg, events[0]), cfg, events[1..]);
    }
  }

  /**
   * A run from a new entry: after `history` the circuit has been open since
   * `openedAt`, and through `events` it neither closes nor is reset.
   */
  ghost predicate OpenRun(cfg: Config, history: seq<Event>, openedAt: int, events: seq<Event>) {
    var e := After(NEW_ENTRY, cfg, history);
    && e.state.Open? && e.openedAt == Some(openedAt)
    && Monotone(events, openedAt) && StaysTripped(e, cfg, events)
  }

  function Failures(n: nat): seq<Event> { seq(n, _ => Failed(0)) }

  /** Failures up to the threshold, or one if the threshold is lower, open a new entry. */
  lemma {:induction false} FailuresOpen(cfg: Config, done: nat, more: nat)
    requires more > 0 && done + more == if cfg.failureThreshold > 1 then cfg.failureThreshold else 1
    ensures After(Entry(Closed, done, 0, None, false), cfg, Failures(more)) ==
            Entry(Open, done + more, 0, Some(0), false)
    decreases more
  {
    var events := Failures(more);
    assert events[0] == Failed(0) && events[1..] == Failures(more - 1);
    if more > 1 {
      assert Next(Entry(Closed, done, 0, None, false), cfg, Failed(0)) == Entry(Closed, done + 1, 0, None, false);
      FailuresOpen(cfg, done + 1, more - 1);
    } else {
      assert Next(Entry(Closed, done, 0, None, false), cfg, Failed(0)) == Entry(Open, done + 1, 0, Some(0), false);
      assert Failures(0) == [];
    }
  }

  function Opening(cfg: Config): seq<Event> {
    Failures(if cfg.failureThreshold > 1 then cfg.failureThreshold else 1)
  }

  function Freeing(at: int): seq<Event> { [Attempt(at), Succeeded(at), Attempt(at)] }

  /** With a closing threshold above one a probe's success frees the next probe at once, in a run from a new entry. */
  lemma SuccessFreesProbe(cfg: Config)
    requires cfg.resetTimeoutMs > 0 && cfg.successThresholdToClose > 1
    ensures var at := cfg.resetTimeoutMs;
            && OpenRun(cfg, Opening(cfg), 0, Freeing(at))
            && Probes(After(NEW_ENTRY, cfg, Opening(cfg)), cfg, Freeing(at)) == [at, at]
  {
    FailuresOpen(cfg, 0, |Opening(cfg)|);
    hide After, Opening, Freeing;
    FreeingFrees(cfg, |Opening(cfg)|);
  }

  lemma FreeingFrees(cfg: Config, n: nat)
    requires cfg.resetTimeoutMs > 0 && cfg.successThresholdToClose > 1
    ensures var e, at := Entry(Open, n, 0, Some(0), false), cfg.resetTimeoutMs;
            && Monotone(Freeing(at), 0) && StaysTripped(e, cfg, Freeing(at))
            && Probes(e, cfg, Freeing(at)) == [at, at]
  {
    var at := cfg.resetTimeoutMs;
    var e := Entry(Open, n, 0, Some(0), false);
    var e1, e2 := e.(state := HalfOpen, probeInFlight := true), e.(state := HalfOpen, successes := 1);
    var two, one := [Succeeded(at), Attempt(at)], [Attempt(at)];
    assert Freeing(at)[1..] == two && two[1..] == one && one[1..] == [];
    assert Next(e, cfg, Attempt(at)) == e1 && Next(e1, cfg, Succeeded(at)) == e2;
    assert Next(e2, cfg, Attempt(at)).state.HalfOpen?;
    assert Monotone(one, at) && Monotone(two, at);
    assert StaysTripped(e2, cfg, one);
    assert StaysTripped(e1, cfg, two);
    assert Probes(e2, cfg, one) == [at] + Probes(Next(e2, cfg, one[0]), cfg, []) == [at];
    assert Probes(e1, cfg, two) == [] + Probes(e2, cfg, one) == [at];
    assert Probes(e, cfg, Freeing(at)) == [at] + Probes(e1, cfg, two);
  }

  /** In every run from a new entry probes are spaced, if and only if one success closes the circuit. */
  lemma SpacingIff(cfg: Config)
    requires cfg.resetTimeoutMs > 0
    ensures (forall history, openedAt, events | OpenRun(cfg, history, openedAt, events) ::
               Spaced(Probes(After(NEW_ENTRY, cfg, history), cfg, events), openedAt, cfg.resetTimeoutMs)) <==>
            cfg.successThresholdToClose <= 1
  {
    if cfg.successThresholdToClose <= 1 {
      forall history, openedAt, events | OpenRun(cfg, history, openedAt, events)
        ensures Spaced(Probes(After(NEW_ENTRY, cfg, history), cfg, events), openedAt, cfg.resetTimeoutMs)
      {
        SuccessesStay(NEW_ENTRY, cfg, history);
        ProbesAreSpaced(After(NEW_ENTRY, cfg, history), cfg, events, openedAt, openedAt);
      }
    } else {
      SuccessFreesProbe(cfg);
      var at := cfg.resetTimeoutMs;
      assert !Spaced([at, at], 0, at) by { assert [at, at][1..] == [at]; }
      hide OpenRun, Probes, After, Spaced;
      assert OpenRun(cfg, Opening(cfg), 0, Freeing(at));
    }
  }
}
