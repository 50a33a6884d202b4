/** The admission controller object: its critical sections, branch by branch, each proved
    to be one step of the machine.  Sessions, episodes and attempts are records in the
    controller's dictionaries. */
module AdmissionController {
  import opened Common
  import opened AdmissionMachine
  import opened AdmissionInvariant
  import Window = SlidingWindow

  function Woken(y: Session): Session {
    if y.pc.Parked? || y.pc.ParkedLeader? then y.(pc := y.pc.(notified := true)) else y
  }

  function AllWoken(sessions: map<SessionId, Session>): map<SessionId, Session> {
    map t | t in sessions :: Woken(sessions[t])
  }

  function WithError(sessions: map<SessionId, Session>, waiters: set<SessionId>, error: Error): map<SessionId, Session> {
    map t | t in sessions :: if t in waiters then sessions[t].(terminal := Some(error)) else sessions[t]
  }

  lemma {:induction false} UnchangedEpisode(st: State, m: Model)
    ensures PutEpisode(st.episodes, m, EpisodeOf(st, m)) == st.episodes
  {
    assert m in st.episodes ==> st.episodes[m := st.episodes[m]] == st.episodes;
  }

  /** A step that dooms nobody, as plain dictionary updates. */
  lemma {:induction false} StepAsUpdates(st: State, s: SessionId, op: Op)
    requires Enabled(st, Do(s, op))
    requires var c := ChangeOf(st, s, op); c.doom.None? && !(c.notify && (c.x.pc.Parked? || c.x.pc.ParkedLeader?))
    ensures var c := ChangeOf(st, s, op);
            var updated := st.sessions[s := c.x];
            var ep := EpisodeOf(st, st.sessions[s].model);
            Step(st, Do(s, op)) ==
            st.(sessions := if c.notify then AllWoken(updated) else updated,
                episodes := if c.ep == ep then st.episodes else PutEpisode(st.episodes, st.sessions[s].model, c.ep),
                nextGeneration := st.nextGeneration + if c.spent then 1 else 0,
                free := st.free + c.slots,
                window := RateResult(st, s, op).0)
  {
    hide SessionStep;
    var c := ChangeOf(st, s, op);
    var updated := st.sessions[s := c.x];
    assert Step(st, Do(s, op)).sessions == if c.notify then AllWoken(updated) else updated;
    UnchangedEpisode(st, st.sessions[s].model);
  }

  /** The step that exhausts an episode, as plain dictionary updates. */
  lemma {:induction false} ExhaustionAsUpdates(st: State, s: SessionId, op: Op)
    requires Enabled(st, Do(s, op))
    requires var c := ChangeOf(st, s, op); c.doom.Some? && c.notify && c.x.pc.Holding?
    requires !Waits(EpisodeOf(st, st.sessions[s].model), s)
    ensures var c := ChangeOf(st, s, op);
            var ep := EpisodeOf(st, st.sessions[s].model);
            var updated := st.sessions[s := c.x];
            Step(st, Do(s, op)) ==
            st.(sessions := AllWoken(WithError(updated, if ep.Some? then ep.value.waiters else {}, c.doom.value)),
                episodes := PutEpisode(st.episodes, st.sessions[s].model, c.ep),
                nextGeneration := st.nextGeneration + if c.spent then 1 else 0,
                free := st.free + c.slots,
                window := RateResult(st, s, op).0)
  {
    hide SessionStep;
    var c := ChangeOf(st, s, op);
    var ep := EpisodeOf(st, st.sessions[s].model);
    var updated := st.sessions[s := c.x];
    assert Step(st, Do(s, op)).sessions == AllWoken(WithError(updated, if ep.Some? then ep.value.waiters else {}, c.doom.value));
  }

  class ProviderAdmissionController {
    const budget: nat
    const capacity: nat
    const limiter: Window.StrictSlidingWindowLimiter
    ghost var clock: real
    var free: nat
    var hedges: nat
    var nextGeneration: nat
    var episodes: map<Model, Episode>
    var sessions: map<SessionId, Session>

    ghost function View(): State
      reads this, limiter
    {
      State(clock, budget, capacity, free, hedges, nextGeneration, episodes, sessions, limiter.View())
    }

    ghost predicate Valid()
      reads this, limiter
    {
      Inv(View()) && limiter.clock == clock && limiter.Valid()
    }

    constructor (budget: nat, capacity: nat, rateLimit: int, rateWindow: real, ghost now: real)
      requires rateLimit > 0 && rateWindow > 0.0 && capacity > 0 && budget > 0
      ensures Valid() && fresh(limiter)
      ensures View() == InitialState(now, budget, capacity, rateLimit, rateWindow)
    {
      hide Inv, Window.Inv;
      this.budget := budget;
      this.capacity := capacity;
      limiter := new Window.StrictSlidingWindowLimiter(rateLimit, rateWindow, now);
      clock := now;
      free, hedges, nextGeneration := capacity, 0, 1;
      episodes, sessions := map[], map[];
      new;
      InitialInv(now, budget, capacity, rateLimit, rateWindow);
    }

    function EpisodeFor(s: SessionId): Option<Episode>
      requires s in sessions
      reads this
    {
      if sessions[s].model in episodes then Some(episodes[sessions[s].model]) else None
    }

    method Goto(s: SessionId, pc: Pc)
      requires s in sessions
      modifies this`sessions
      ensures sessions == old(sessions)[s := old(sessions)[s].(pc := pc)]
    {
      sessions := sessions[s := sessions[s].(pc := pc)];
    }

    method NotifyAll()
      modifies this`sessions
      ensures sessions == AllWoken(old(sessions))
    {
      sessions := map t | t in sessions :: Woken(sessions[t]);
    }

    method StartRecoveryEpisode(m: Model, leader: Option<SessionId>, readyAt: real, lastError: Error)
      returns (episode: Episode)
      modifies this`episodes, this`nextGeneration
      ensures episode == Opened(old(nextGeneration), leader, readyAt, lastError)
      ensures nextGeneration == old(nextGeneration) + 1 && episodes == old(episodes)[m := episode]
    {
      episode := Episode(nextGeneration, leader, readyAt, lastError, {}, false, None);
      nextGeneration := nextGeneration + 1;
      episodes := episodes[m := episode];
    }

    /** The gate, under the condition's lock. */
    method GateSection(s: SessionId, now: real)
      requires Valid() && s in sessions && sessions[s].pc.AtLock? && now == clock
      modifies this`sessions, this`episodes, this`nextGeneration
      ensures Valid() && View() == Step(old(View()), Do(s, EnterGate))
    {
      hide Inv;
      ghost var before := View();
      StepKeepsInv(before, Do(s, EnterGate));
      StepAsUpdates(before, s, EnterGate);
      var m := sessions[s].model;
      if m !in episodes {
        Goto(s, AtRate(Normal));
        return;
      }
      var episode := episodes[m];
      if episode.terminalUntil.Some? {
        if now < episode.terminalUntil.value {
          Goto(s, Ended(RecoveryExhausted(episode.lastError)));
          return;
        }
        episode := StartRecoveryEpisode(m, Some(s), now, episode.lastError);
      }
      if episode.leader.None? {
        episode := episode.(leader := Some(s), waiters := episode.waiters - {s});
        episodes := episodes[m := episode];
      }
      if episode.leader == Some(s) {
        if episode.probeActive {
          Goto(s, ParkedLeader(false));
        } else if episode.readyAt <= now {
          episodes := episodes[m := episode.(probeActive := true)];
          Goto(s, AtRate(Probe(episode.generation, now)));
        } else {
          Goto(s, Sleeping(episode.generation));
        }
      } else {
        episodes := episodes[m := episode.(waiters := episode.waiters + {s})];
        Goto(s, Parked(episode.generation, false));
      }
      assert episodes == before.episodes[m := episodes[m]];
    }

    /** A leader back from its sleep, under the condition's lock. */
    method RecheckSection(s: SessionId, now: real)
      requires Valid() && s in sessions && sessions[s].pc.Sleeping? && now == clock
      modifies this`sessions, this`episodes
      ensures Valid() && View() == Step(old(View()), Do(s, Recheck))
    {
      hide Inv;
      ghost var before := View();
      StepKeepsInv(before, Do(s, Recheck));
      StepAsUpdates(before, s, Recheck);
      var m := sessions[s].model;
      var claimed := sessions[s].pc.generation;
      if m in episodes {
        var episode := episodes[m];
        if episode.generation == claimed && episode.terminalUntil.None? && episode.leader == Some(s)
           && !episode.probeActive && episode.readyAt <= now {
          episodes := episodes[m := episode.(probeActive := true)];
          Goto(s, AtRate(Probe(episode.generation, now)));
          return;
        }
      }
      BackToTop(s);
    }

    /** The top of the gate loop. */
    method BackToTop(s: SessionId)
      requires s in sessions
      modifies this`sessions
      ensures sessions == old(sessions)[s := AtTop(old(sessions)[s])]
    {
      if sessions[s].terminal.Some? {
        Goto(s, Ended(RecoveryExhausted(sessions[s].terminal.value)));
      } else {
        Goto(s, AtLock);
      }
    }

    method WakeParkedSession(s: SessionId)
      requires Valid() && s in sessions && OpEnabled(WakeParked, sessions[s])
      modifies this`sessions
      ensures Valid() && View() == Step(old(View()), Do(s, WakeParked))
    {
      hide Inv;
      StepKeepsInv(View(), Do(s, WakeParked));
      StepAsUpdates(View(), s, WakeParked);
      BackToTop(s);
    }

    /** A cancelled follower leaves the waiter set if its episode is still the current one. */
    method CancelParkedSession(s: SessionId)
      requires Valid() && s in sessions && OpEnabled(CancelParked, sessions[s])
      modifies this`sessions, this`episodes
      ensures Valid() && View() == Step(old(View()), Do(s, CancelParked))
    {
      hide Inv;
      StepKeepsInv(View(), Do(s, CancelParked));
      StepAsUpdates(View(), s, CancelParked);
      var m := sessions[s].model;
      var pc := sessions[s].pc;
      if pc.Parked? && m in episodes && episodes[m].generation == pc.generation {
        episodes := episodes[m := episodes[m].(waiters := episodes[m].waiters - {s})];
      }
      Goto(s, Orphaning);
    }

    /** Cancelled during the backoff sleep: hand leadership on if still held unprobed. */
    method AbandonWaitingLeader(s: SessionId)
      requires Valid() && s in sessions && sessions[s].pc.Yielding?
      modifies this`sessions, this`episodes
      ensures Valid() && View() == Step(old(View()), Do(s, Yield))
    {
      hide Inv;
      StepKeepsInv(View(), Do(s, Yield));
      StepAsUpdates(View(), s, Yield);
      var m := sessions[s].model;
      var generation := sessions[s].pc.generation;
      Goto(s, Orphaning);
      if m !in episodes || episodes[m].generation != generation || episodes[m].leader != Some(s)
         || episodes[m].probeActive {
        return;
      }
      episodes := episodes[m := episodes[m].(leader := None)];
      NotifyAll();
    }

    /** Cancelled inside the gate: release whatever leadership is still held. */
    method AbandonOrphanedLeadership(s: SessionId, now: real)
      requires Valid() && s in sessions && sessions[s].pc.Orphaning? && now == clock
      modifies this`sessions, this`episodes
      ensures Valid() && View() == Step(old(View()), Do(s, Orphan))
    {
      hide Inv;
      StepKeepsInv(View(), Do(s, Orphan));
      StepAsUpdates(View(), s, Orphan);
      var m := sessions[s].model;
      Goto(s, Ended(Cancelled));
      if m !in episodes || episodes[m].leader != Some(s) {
        return;
      }
      episodes := episodes[m := episodes[m].(leader := None, probeActive := false, readyAt := now)];
      NotifyAll();
    }

    method MatchingProbe(s: SessionId, permit: Permit) returns (matches: bool)
      requires s in sessions
      ensures matches == MatchesProbe(s, permit, EpisodeFor(s))
    {
      var m := sessions[s].model;
      if !permit.Probe? || m !in episodes || episodes[m].generation != permit.generation
         || episodes[m].leader != Some(s) || !episodes[m].probeActive {
        return false;
      }
      return true;
    }

    /** Giving a probe permit back after a refused, cancelled or failed admission. */
    method AbandonProbePermit(s: SessionId, now: real)
      requires Valid() && s in sessions && sessions[s].pc.Dropping? && now == clock
      modifies this`sessions, this`episodes
      ensures Valid() && View() == Step(old(View()), Do(s, Drop))
    {
      hide Inv;
      StepKeepsInv(View(), Do(s, Drop));
      StepAsUpdates(View(), s, Drop);
      var m := sessions[s].model;
      var pc := sessions[s].pc;
      var matches := MatchingProbe(s, pc.permit);
      if pc.leaving {
        Goto(s, Ended(Cancelled));
      } else {
        BackToTop(s);
      }
      if matches {
        episodes := episodes[m := episodes[m].(leader := None, probeActive := false, readyAt := now)];
        NotifyAll();
      }
    }

    /** Closing an unresolved attempt: abandon its probe, then release its slot. */
    method AttemptAbandoned(s: SessionId, now: real)
      requires Valid() && s in sessions && sessions[s].pc.Closing? && now == clock
      modifies this`sessions, this`episodes, this`free
      ensures Valid() && View() == Step(old(View()), Do(s, Release))
    {
      hide Inv;
      StepKeepsInv(View(), Do(s, Release));
      StepAsUpdates(View(), s, Release);
      var m := sessions[s].model;
      var matches := MatchingProbe(s, sessions[s].pc.permit);
      Goto(s, Ended(Cancelled));
      if matches {
        episodes := episodes[m := episodes[m].(leader := None, probeActive := false, readyAt := now)];
        NotifyAll();
      }
      free := free + 1;
    }

    /** A valid upstream response: close the episode when this was its probe. */
    method AttemptSucceeded(s: SessionId)
      requires Valid() && s in sessions && OpEnabled(Succeed, sessions[s])
      modifies this`sessions, this`episodes
      ensures Valid() && View() == Step(old(View()), Do(s, Succeed))
    {
      hide Inv;
      StepKeepsInv(View(), Do(s, Succeed));
      StepAsUpdates(View(), s, Succeed);
      var m := sessions[s].model;
      var attempt := sessions[s].pc.attempt;
      var matches := MatchingProbe(s, attempt.permit);
      Goto(s, Holding(attempt.(resolved := true, accepted := true)));
      if matches {
        episodes := episodes - {m};
        NotifyAll();
      }
    }

    /** A bounded request correction keeps probe ownership. */
    method AttemptCorrected(s: SessionId, now: real)
      requires Valid() && s in sessions && OpEnabled(Correct, sessions[s]) && now == clock
      modifies this`sessions, this`episodes
      ensures Valid() && View() == Step(old(View()), Do(s, Correct))
    {
      hide Inv;
      StepKeepsInv(View(), Do(s, Correct));
      StepAsUpdates(View(), s, Correct);
      var m := sessions[s].model;
      var attempt := sessions[s].pc.attempt;
      var matches := MatchingProbe(s, attempt.permit);
      Goto(s, Holding(attempt.(resolved := true, again := true)));
      if matches {
        episodes := episodes[m := episodes[m].(probeActive := false, readyAt := now)];
        NotifyAll();
      }
    }

    /** A final upstream rejection closes the episode when this was its probe. */
    method AttemptRejected(s: SessionId)
      requires Valid() && s in sessions && OpEnabled(Reject, sessions[s])
      modifies this`sessions, this`episodes
      ensures Valid() && View() == Step(old(View()), Do(s, Reject))
    {
      hide Inv;
      StepKeepsInv(View(), Do(s, Reject));
      StepAsUpdates(View(), s, Reject);
      var m := sessions[s].model;
      var attempt := sessions[s].pc.attempt;
      var matches := MatchingProbe(s, attempt.permit);
      Goto(s, Holding(attempt.(resolved := true)));
      if matches {
        episodes := episodes - {m};
        NotifyAll();
      }
    }

    /** Hands the terminal error to every waiter, one by one. */
    method FailWaiters(waiters: set<SessionId>, error: Error)
      requires waiters <= sessions.Keys
      modifies this`sessions
      ensures sessions == WithError(old(sessions), waiters, error)
    {
      var pending := waiters;
      while pending != {}
        invariant pending <= waiters && sessions.Keys == old(sessions).Keys
        invariant sessions == WithError(old(sessions), waiters - pending, error)
        decreases pending
      {
        var w :| w in pending;
        sessions := sessions[w := sessions[w].(terminal := Some(error))];
        pending := pending - {w};
      }
      assert waiters - pending == waiters;
    }

    /** Puts the model's episode, new or old, on terminal hold and fails its waiters. */
    method ExhaustEpisode(m: Model, error: Error, until: real, now: real)
      requires m in episodes ==> episodes[m].waiters <= sessions.Keys
      modifies this`sessions, this`episodes, this`nextGeneration
      ensures var e := if m in old(episodes) then old(episodes)[m] else Opened(old(nextGeneration), None, now, error);
              && sessions == AllWoken(WithError(old(sessions), e.waiters, error))
              && episodes == old(episodes)[m := e.(lastError := error, leader := None, probeActive := false,
                                                   terminalUntil := Some(until), waiters := {})]
      ensures nextGeneration == old(nextGeneration) + if m in old(episodes) then 0 else 1
    {
      ghost var before := episodes;
      var episode;
      if m !in episodes {
        episode := StartRecoveryEpisode(m, None, now, error);
      } else {
        episode := episodes[m];
      }
      FailWaiters(episode.waiters, error);
      episodes := episodes[m := episode.(lastError := error, leader := None, probeActive := false,
                                         terminalUntil := Some(until), waiters := {})];
      assert episodes == before[m := episodes[m]];
      NotifyAll();
    }

    /** The retry side of a failure: lead a new episode, keep leading, take over the terminal
        error of an exhausted one, or join the waiters. */
    method ScheduleRetry(s: SessionId, error: Error, readyAt: real, matches: bool)
      requires s in sessions && (matches ==> sessions[s].model in episodes)
      modifies this`sessions, this`episodes, this`nextGeneration
      ensures var m := old(sessions)[s].model;
              if m !in old(episodes) then
                && episodes == old(episodes)[m := Opened(old(nextGeneration), Some(s), readyAt, error)]
                && nextGeneration == old(nextGeneration) + 1 && sessions == AllWoken(old(sessions))
              else
                var e := old(episodes)[m];
                nextGeneration == old(nextGeneration) &&
                if matches then
                  episodes == old(episodes)[m := e.(lastError := error, probeActive := false, readyAt := readyAt)]
                  && sessions == AllWoken(old(sessions))
                else if e.terminalUntil.Some? then
                  episodes == old(episodes)
                  && sessions == AllWoken(old(sessions)[s := old(sessions)[s].(terminal := Some(e.lastError))])
                else
                  episodes == old(episodes)[m := e.(waiters := e.waiters + {s})] && sessions == AllWoken(old(sessions))
    {
      var m := sessions[s].model;
      if m !in episodes {
        var _ := StartRecoveryEpisode(m, Some(s), readyAt, error);
      } else if matches {
        episodes := episodes[m := episodes[m].(lastError := error, probeActive := false, readyAt := readyAt)];
      } else if episodes[m].terminalUntil.Some? {
        sessions := sessions[s := sessions[s].(terminal := Some(episodes[m].lastError))];
      } else {
        episodes := episodes[m := episodes[m].(waiters := episodes[m].waiters + {s})];
      }
      NotifyAll();
    }

    /** A retryable failure: open, keep or exhaust the episode, or join its waiters. */
    method AttemptFailed(s: SessionId, error: Error, delay: real, terminalDelay: real, now: real)
      returns (canRetry: bool)
      requires Valid() && s in sessions && OpEnabled(Fail(error, delay, terminalDelay), sessions[s]) && now == clock
      modifies this`sessions, this`episodes, this`nextGeneration
      ensures Valid() && View() == Step(old(View()), Do(s, Fail(error, delay, terminalDelay)))
      ensures canRetry == (old(sessions)[s].started < budget)
    {
      hide Inv, Window.Inv, Step;
      canRetry := sessions[s].started < budget;
      var matches := MatchingProbe(s, sessions[s].pc.attempt.permit);
      if canRetry {
        FailWithBudget(s, error, delay, terminalDelay, now, matches);
      } else {
        FailWithoutBudget(s, error, delay, terminalDelay, now, matches);
      }
    }

    method FailWithBudget(s: SessionId, error: Error, delay: real, terminalDelay: real, now: real, matches: bool)
      requires Valid() && s in sessions && OpEnabled(Fail(error, delay, terminalDelay), sessions[s]) && now == clock
      requires sessions[s].started < budget && matches == MatchesProbe(s, sessions[s].pc.attempt.permit, EpisodeFor(s))
      modifies this`sessions, this`episodes, this`nextGeneration
      ensures Valid() && View() == Step(old(View()), Do(s, Fail(error, delay, terminalDelay)))
    {
      hide Inv, Window.Inv;
      ghost var before := View();
      ghost var op := Fail(error, delay, terminalDelay);
      Window.InvPositive(limiter.View(), clock);
      StepKeepsInv(before, Do(s, op));
      StepAsUpdates(before, s, op);
      Goto(s, Holding(sessions[s].pc.attempt.(resolved := true, again := true)));
      ScheduleRetry(s, error, now + delay, matches);
      assert sessions == AllWoken(before.sessions[s := ChangeOf(before, s, op).x]);
    }

    method FailWithoutBudget(s: SessionId, error: Error, delay: real, terminalDelay: real, now: real, matches: bool)
      requires Valid() && s in sessions && OpEnabled(Fail(error, delay, terminalDelay), sessions[s]) && now == clock
      requires sessions[s].started >= budget && matches == MatchesProbe(s, sessions[s].pc.attempt.permit, EpisodeFor(s))
      modifies this`sessions, this`episodes, this`nextGeneration
      ensures Valid() && View() == Step(old(View()), Do(s, Fail(error, delay, terminalDelay)))
    {
      hide Inv, Window.Inv;
      ghost var before := View();
      ghost var op := Fail(error, delay, terminalDelay);
      Window.InvPositive(limiter.View(), clock);
      StepKeepsInv(before, Do(s, op));
      WaitersAreSessions(before, s);
      var m := sessions[s].model;
      Goto(s, Holding(sessions[s].pc.attempt.(resolved := true, again := false)));
      if m !in episodes || matches {
        ExhaustionAsUpdates(before, s, op);
        ExhaustEpisode(m, error, now + terminalDelay, now);
      } else {
        StepAsUpdates(before, s, op);
      }
    }

    /** A stream that failed after acceptance backs off alone and touches no episode. */
    method AcceptedAttemptFailed(s: SessionId, delay: real, now: real) returns (canRetry: bool)
      requires Valid() && s in sessions && OpEnabled(AcceptedFail(delay), sessions[s]) && now == clock
      modifies this`sessions
      ensures Valid() && View() == Step(old(View()), Do(s, AcceptedFail(delay)))
      ensures canRetry == (old(sessions)[s].started < budget)
    {
      hide Inv;
      StepKeepsInv(View(), Do(s, AcceptedFail(delay)));
      StepAsUpdates(View(), s, AcceptedFail(delay));
      canRetry := sessions[s].started < budget;
      if canRetry {
        sessions := sessions[s := sessions[s].(notBefore := Some(now + delay),
                                               pc := Holding(sessions[s].pc.attempt.(again := true)))];
      } else {
        assert sessions == sessions[s := sessions[s]];
      }
    }

    /** One pass of the rate window for a session holding a permit. */
    method AcquireRate(s: SessionId, now: real)
      requires Valid() && s in sessions && sessions[s].pc.AtRate? && now == clock
      modifies this`sessions, limiter`times, limiter`log, limiter`clock
      ensures Valid() && View() == Step(old(View()), Do(s, RatePass))
    {
      hide Inv;
      StepKeepsInv(View(), Do(s, RatePass));
      StepAsUpdates(View(), s, RatePass);
      assert sessions == sessions[s := sessions[s]];
      var permit := sessions[s].pc.permit;
      var allowed := PermitIsCurrent(s, permit, EpisodeFor(s));
      var outcome := limiter.AcquirePass(now, now, allowed);
      match outcome {
        case Admitted => Goto(s, AtSlot(permit));
        case Refused => Goto(s, Dropping(permit, false));
        case Retry(_) =>
      }
    }

    /** The slot was handed over; start the attempt if the permit is still current. */
    method ClaimAttempt(s: SessionId)
      requires Valid() && s in sessions && sessions[s].pc.Granted?
      modifies this`sessions, this`free
      ensures Valid() && View() == Step(old(View()), Do(s, Claim))
    {
      hide Inv;
      StepKeepsInv(View(), Do(s, Claim));
      StepAsUpdates(View(), s, Claim);
      var permit := sessions[s].pc.permit;
      if !PermitIsCurrent(s, permit, EpisodeFor(s)) {
        free := free + 1;
        Goto(s, Dropping(permit, false));
        return;
      }
      sessions := sessions[s := sessions[s].(started := sessions[s].started + 1,
                                             pc := Holding(Attempt(permit, false, false, false)))];
    }

    /** Closing an attempt: an unresolved one is abandoned first; a resolved one frees its
        slot, and the driver reopens or ends. */
    method CloseAttempt(s: SessionId, reopen: bool)
      requires Valid() && s in sessions && OpEnabled(Close(reopen), sessions[s])
      modifies this`sessions, this`free
      ensures Valid() && View() == Step(old(View()), Do(s, Close(reopen)))
    {
      hide Inv;
      StepKeepsInv(View(), Do(s, Close(reopen)));
      StepAsUpdates(View(), s, Close(reopen));
      var attempt := sessions[s].pc.attempt;
      if !attempt.resolved {
        Goto(s, Closing(attempt.permit));
        return;
      }
      free := free + 1;
      if reopen {
        OpenAgain(s);
      } else {
        Goto(s, Ended(if attempt.accepted then Returned else Raised));
      }
    }

    /** The head of `open_attempt`. */
    method OpenAgain(s: SessionId)
      requires s in sessions
      modifies this`sessions
      ensures sessions == old(sessions)[s := Reopened(old(sessions)[s], budget)]
    {
      if sessions[s].started >= budget {
        Goto(s, Ended(Raised));
      } else if sessions[s].notBefore.Some? {
        Goto(s, BackingOff);
      } else {
        BackToTop(s);
      }
    }

    /** Closing an attempt to be retried, for a driver with work of its own before it reopens. */
    method PauseAttempt(s: SessionId)
      requires Valid() && s in sessions && OpEnabled(Pause, sessions[s])
      modifies this`sessions, this`free
      ensures Valid() && View() == Step(old(View()), Do(s, Pause))
    {
      hide Inv;
      StepKeepsInv(View(), Do(s, Pause));
      StepAsUpdates(View(), s, Pause);
      free := free + 1;
      Goto(s, Pausing(sessions[s].pc.attempt.accepted));
    }

    method ReopenAttempt(s: SessionId)
      requires Valid() && s in sessions && OpEnabled(Reopen, sessions[s])
      modifies this`sessions
      ensures Valid() && View() == Step(old(View()), Do(s, Reopen))
    {
      hide Inv;
      StepKeepsInv(View(), Do(s, Reopen));
      StepAsUpdates(View(), s, Reopen);
      OpenAgain(s);
    }

    /** A speculative hedge takes a rate admission and a slot, or nothing.  The semaphore counts as locked when no
        slot is free, and also while somebody is queued for one. */
    method TryAcquireHedgeSlot(now: real, queued: bool) returns (ok: bool)
      requires Valid() && now == clock
      modifies this`free, this`hedges, limiter`times, limiter`log, limiter`clock
      ensures Valid()
      ensures old(free) == 0 || queued ==> !ok && View() == old(View())
      ensures old(free) > 0 && !queued ==> View() == Step(old(View()), Hedge) && ok == Window.TryAcquireAt(old(limiter.View()), now).1
    {
      hide Inv;
      if free == 0 || queued {
        return false;
      }
      InvParts(View());
      Window.InvPositive(limiter.View(), clock);
      StepKeepsInv(View(), Hedge);
      ok := limiter.TryAcquire(now);
      if ok {
        free := free - 1;
        hedges := hedges + 1;
      }
    }

    /** Gives a slot back unconditionally: that is a step of the machine exactly when a hedge holds one, and
        otherwise leaves one slot more than the capacity. */
    method ReleaseHedgeSlot()
      requires Valid()
      modifies this`free, this`hedges
      ensures old(hedges) > 0 ==> Valid() && View() == Step(old(View()), Unhedge)
      ensures old(hedges) == 0 ==> View() == old(View()).(free := old(free) + 1) && !SlotsOk(View())
    {
      InvParts(View());
      Window.InvPositive(limiter.View(), clock);
      SlotsAreBalanced(View());
      hide Inv;
      free := free + 1;
      if hedges > 0 {
        StepKeepsInv(old(View()), Unhedge);
        hedges := hedges - 1;
      }
    }

    method SetRateLimit(limit: int)
      requires Valid()
      modifies limiter`rateLimit
      ensures Valid() && View() == Step(old(View()), Retune(limit))
    {
      hide Inv;
      InvParts(View());
      Window.InvPositive(limiter.View(), clock);
      StepKeepsInv(View(), Retune(limit));
      var _ := limiter.SetRateLimit(if limit < 1 then 1 else limit);
    }
  }

  lemma {:induction false} SlotsAreBalanced(st: State)
    requires Inv(st)
    ensures SlotsOk(st)
  {
  }

  lemma {:induction false} WaitersAreSessions(st: State, s: SessionId)
    requires Inv(st) && s in st.sessions
    ensures var m := st.sessions[s].model;
            m in st.episodes ==>
              && st.episodes[m].waiters <= st.sessions.Keys
              && (st.episodes[m].leader == Some(s) ==> s !in st.episodes[m].waiters)
  {
    var m := st.sessions[s].model;
    assert Pair(s, st.sessions[s], EpisodeOf(st, m), st.clock, st.budget);
    if m in st.episodes {
      assert Members(st, m, st.episodes[m]);
      forall t | t in st.episodes[m].waiters ensures t in st.sessions {
        assert Member(st, t, m);
      }
    }
  }
}
