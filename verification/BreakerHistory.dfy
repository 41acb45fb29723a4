/**
 * What a breaker's entry holds, counted from the events since it was new: which
 * failures count, when the circuit leaves each state and whom it admits.
 */
module BreakerHistory {
  import opened Text
  import opened Breaker

  ghost function At(cfg: Config, events: seq<Event>): Entry { After(NEW_ENTRY, cfg, events) }

  function Front(events: seq<Event>): seq<Event>
    requires events != []
  {
    events[..|events| - 1]
  }

  function Last(events: seq<Event>): Event
    requires events != []
  {
    events[|events| - 1]
  }

  /** Failures since the last success or reset. */
  function FailuresSince(events: seq<Event>): nat {
    if events == [] || Last(events).Succeeded? || Last(events).ManualReset? then 0
    else FailuresSince(Front(events)) + if Last(events).Failed? then 1 else 0
  }

  /** When the circuit last opened, if it has not closed since. */
  ghost function LastOpening(cfg: Config, events: seq<Event>): Option<int> {
    if events == [] || At(cfg, events).state.Closed? then None
    else if At(cfg, events).state.Open? && !At(cfg, Front(events)).state.Open?
    then Some(Last(events).at)
    else LastOpening(cfg, Front(events))
  }

  /** Half-open successes since the last failure, reset, or success in another state. */
  ghost function Confirmations(cfg: Config, events: seq<Event>): nat {
    if events == [] || Last(events).Failed? || Last(events).ManualReset? then 0
    else if Last(events).Attempt? then Confirmations(cfg, Front(events))
    else if At(cfg, Front(events)).state.HalfOpen? then Confirmations(cfg, Front(events)) + 1
    else 0
  }

  /** Failures since the last reset or success, half-open successes that do not close the circuit aside. */
  ghost function Tally(cfg: Config, events: seq<Event>): nat {
    if events == [] || Last(events).ManualReset? || (Last(events).Succeeded? && !At(cfg, events).state.HalfOpen?) then 0
    else Tally(cfg, Front(events)) + if Last(events).Failed? then 1 else 0
  }

  lemma {:induction false} AfterAppend(e: Entry, cfg: Config, events: seq<Event>, event: Event)
    ensures After(e, cfg, events + [event]) == Next(After(e, cfg, events), cfg, event)
    decreases |events|
  {
    hide Next;
    if events == [] {
      assert [] + [event] == [event] && [event][1..] == [];
      assert After(Next(e, cfg, event), cfg, []) == Next(e, cfg, event);
    } else {
      AfterAppend(Next(e, cfg, events[0]), cfg, events[1..], event);
      assert (events + [event])[1..] == events[1..] + [event];
    }
  }

  lemma LastStep(cfg: Config, events: seq<Event>)
    requires events != []
    ensures At(cfg, events) == Next(At(cfg, Front(events)), cfg, Last(events))
  {
    AfterAppend(NEW_ENTRY, cfg, Front(events), Last(events));
    assert events == Front(events) + [Last(events)];
  }

  /** While the circuit is closed its count is that of the failures since the last success or reset. */
  lemma {:induction false} ClosedCountsFailures(cfg: Config, events: seq<Event>)
    requires At(cfg, events).state.Closed?
    ensures At(cfg, events).failures == FailuresSince(events)
    decreases |events|
  {
    hide After;
    if events == [] {
      assert At(cfg, events) == NEW_ENTRY by { EmptyRun(cfg); }
    } else {
      LastStep(cfg, events);
      if At(cfg, Front(events)).state.Closed? {
        ClosedCountsFailures(cfg, Front(events));
      }
    }
  }

  lemma EmptyRun(cfg: Config)
    ensures At(cfg, []) == NEW_ENTRY
  {
  }

  /** The circuit leaves `Closed` exactly on a failure that brings the failures since then up to the threshold. */
  lemma LeavesClosedIff(cfg: Config, events: seq<Event>, event: Event)
    requires At(cfg, events).state.Closed?
    ensures var state := At(cfg, events + [event]).state;
            && (!state.Closed? <==> event.Failed? && FailuresSince(events) + 1 >= cfg.failureThreshold)
            && !state.HalfOpen?
  {
    ClosedCountsFailures(cfg, events);
    AfterAppend(NEW_ENTRY, cfg, events, event);
  }

  function FailuresIn(events: seq<Event>, start: nat, end: nat): set<nat>
    requires end <= |events|
  {
    set i: nat | start <= i < end && events[i].Failed?
  }

  /** A stretch of the run without a success or a reset, and the failures in it. */
  ghost predicate Streak(events: seq<Event>, start: nat, end: nat, failures: nat) {
    && start <= end <= |events|
    && (forall i | start <= i < end :: events[i].Failed? || events[i].Attempt?)
    && |FailuresIn(events, start, end)| == failures
  }

  lemma FailuresPush(events: seq<Event>, start: nat)
    requires events != [] && start <= |Front(events)|
    ensures |FailuresIn(events, start, |events|)| ==
            |FailuresIn(Front(events), start, |Front(events)|)| + if Last(events).Failed? then 1 else 0
  {
    var front := Front(events);
    var before, all := FailuresIn(front, start, |front|), FailuresIn(events, start, |events|);
    assert all == if Last(events).Failed? then before + {|front|} else before;
  }

  /** The count is the longest such streak at the end of the run. */
  lemma {:induction false} SinceIsStreak(events: seq<Event>) returns (start: nat)
    ensures Streak(events, start, |events|, FailuresSince(events))
    ensures start > 0 ==> events[start - 1].Succeeded? || events[start - 1].ManualReset?
    decreases |events|
  {
    if events == [] || Last(events).Succeeded? || Last(events).ManualReset? {
      start := |events|;
      assert FailuresIn(events, start, |events|) == {};
    } else {
      var front := Front(events);
      start := SinceIsStreak(front);
      FailuresPush(events, start);
      hide FailuresIn;
      assert forall i | start <= i < |front| :: front[i] == events[i];
    }
  }

  /** A new breaker stays closed until a failure completes a streak as long as the threshold. */
  lemma {:induction false} StaysClosedIff(cfg: Config, events: seq<Event>)
    ensures (forall n | 0 <= n <= |events| :: At(cfg, events[..n]).state.Closed?) <==>
            (forall n | 0 <= n < |events| ::
               events[n].Failed? ==> FailuresSince(events[..n]) + 1 < cfg.failureThreshold)
    decreases |events|
  {
    hide After, FailuresSince;
    if events == [] {
      EmptyRun(cfg);
      assert forall n | 0 <= n <= |events| :: events[..n] == [];
    } else {
      var front := Front(events);
      StaysClosedIff(cfg, front);
      assert forall n | 0 <= n <= |front| :: front[..n] == events[..n];
      assert forall n | 0 <= n < |front| :: front[n] == events[n];
      assert front[..|front|] == front && events[..|events|] == events && events[..|front|] == front;
      assert events == front + [Last(events)];
      if At(cfg, front).state.Closed? {
        LeavesClosedIff(cfg, front, Last(events));
      }
      assert At(cfg, events[..|front|]) == At(cfg, front) && At(cfg, events[..|events|]) == At(cfg, events);
    }
  }

  /** What the rest of an entry says of the run. */
  ghost predicate Remembers(e: Entry, cfg: Config, events: seq<Event>) {
    && e.openedAt == LastOpening(cfg, events)
    && (e.state.Closed? <==> e.openedAt.None?)
    && (e.state.HalfOpen? ==> events != [])
    && e.successes == Confirmations(cfg, events)
    && (e.state.Open? ==> e.successes == 0)
    && (e.probeInFlight <==> e.state.HalfOpen? && Last(events).Attempt?)
    && e.failures == Tally(cfg, events)
  }

  lemma {:induction false} EntryRemembers(cfg: Config, events: seq<Event>)
    ensures Remembers(At(cfg, events), cfg, events)
    decreases |events|
  {
    hide At;
    if events == [] {
      EmptyRun(cfg);
    } else {
      LastStep(cfg, events);
      EntryRemembers(cfg, Front(events));
    }
  }

  /** An open circuit turns half open exactly on an attempt a reset timeout after it opened; only a reset closes it. */
  lemma LeavesOpenIff(cfg: Config, events: seq<Event>, event: Event)
    requires At(cfg, events).state.Open?
    ensures LastOpening(cfg, events).Some?
    ensures var state := At(cfg, events + [event]).state;
            && (state.HalfOpen? <==>
                  event.Attempt? && event.at - LastOpening(cfg, events).value >= cfg.resetTimeoutMs)
            && (state.Closed? <==> event.ManualReset?)
  {
    EntryRemembers(cfg, events);
    AfterAppend(NEW_ENTRY, cfg, events, event);
    hide After, LastOpening, Confirmations, Tally;
  }

  /**
   * A half-open circuit opens again exactly on a failure, and closes exactly on
   * a reset or on the success that completes the closing threshold.
   */
  lemma LeavesHalfOpenIff(cfg: Config, events: seq<Event>, event: Event)
    requires At(cfg, events).state.HalfOpen?
    ensures var state := At(cfg, events + [event]).state;
            && (state.Open? <==> event.Failed?)
            && (state.Closed? <==>
                  event.ManualReset? ||
                  (event.Succeeded? && Confirmations(cfg, events) + 1 >= cfg.successThresholdToClose))
  {
    EntryRemembers(cfg, events);
    AfterAppend(NEW_ENTRY, cfg, events, event);
    hide After, LastOpening, Confirmations, Tally;
  }

  /**
   * An attempt is admitted exactly when the circuit is closed, or has been open
   * for a reset timeout, or is half open and no attempt has been made since
   * the last outcome.
   */
  lemma AdmittedIff(cfg: Config, events: seq<Event>, now: int)
    ensures var e := At(cfg, events);
            && (e.state.Open? ==> LastOpening(cfg, events).Some?)
            && (e.state.HalfOpen? ==> events != [])
            && (Should(e, cfg, now).1 <==>
                  match e.state
                  case Closed => true
                  case Open => now - LastOpening(cfg, events).value >= cfg.resetTimeoutMs
                  case HalfOpen => !Last(events).Attempt?)
  {
    EntryRemembers(cfg, events);
    hide At, LastOpening, Confirmations, Tally;
  }

  /** What a snapshot shows after any run, and that the time it gives is when an open circuit admits again. */
  lemma SnapshotTells(cfg: Config, events: seq<Event>)
    ensures var e := At(cfg, events);
            var s := SnapshotOf(e, cfg);
            && s.state == e.state && s.failures == Tally(cfg, events) && s.openedAt == LastOpening(cfg, events)
            && (s.state.Closed? ==> s.failures == FailuresSince(events))
            && s.successes == Confirmations(cfg, events)
            && (s.nextProbeAt.Some? <==> s.state.Open?)
            && (s.nextProbeAt.Some? ==> forall now :: Should(e, cfg, now).1 <==> now >= s.nextProbeAt.value)
  {
    EntryRemembers(cfg, events);
    if At(cfg, events).state.Closed? {
      ClosedCountsFailures(cfg, events);
    }
    hide At, LastOpening, Confirmations, Tally, FailuresSince;
  }
}
