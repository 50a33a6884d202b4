/** How recovery episodes begin, back off, pass from leader to leader and end, and what the gate answers meanwhile. */
module AdmissionLifecycle {
  import opened Common
  import opened AdmissionMachine
  import opened AdmissionInvariant
  import opened AdmissionTheorems
  import opened AdmissionStranding
  import Window = SlidingWindow

  /** One session's step as it shows in the whole state. */
  lemma {:induction false} Effects(st: State, s: SessionId, op: Op)
    requires Enabled(st, Do(s, op))
    ensures var st', c, x := Step(st, Do(s, op)), ChangeOf(st, s, op), st.sessions[s];
            && st'.sessions.Keys == st.sessions.Keys && st'.sessions[s] == c.x
            && (forall t | t in st.sessions && t != s ::
                  st'.sessions[t] == Affected(t, st.sessions[t], Waits(EpisodeOf(st, x.model), t), c))
            && EpisodeOf(st', x.model) == c.ep
            && (forall m | m != x.model :: EpisodeOf(st', m) == EpisodeOf(st, m))
            && st'.clock == st.clock && st'.budget == st.budget && st'.window.limit == st.window.limit
  {
    hide SessionStep, OpEnabled, PermitIsCurrent;
  }

  lemma {:induction false} PairOf(st: State, s: SessionId)
    requires Inv(st) && s in st.sessions
    ensures var ep := EpisodeOf(st, st.sessions[s].model);
            Pair(s, st.sessions[s], ep, st.clock, st.budget) && ShapeOf(ep, st.nextGeneration)
    ensures st.window.limit > 0
  {
    hide Window.Inv, Pair, Shape;
    InvParts(st);
    Window.InvPositive(st.window, st.clock);
    if st.sessions[s].model in st.episodes {
      assert Shape(st.episodes[st.sessions[s].model], st.nextGeneration);
    }
  }

  // ----- the gate -----

  predicate OnHoldAt(ep: Episode, clock: real) {
    ep.terminalUntil.Some? && clock < ep.terminalUntil.value
  }

  /** An episode the session may lead: its hold is over, nobody leads it, or it leads it already. */
  predicate Takeable(s: SessionId, ep: Episode) {
    ep.terminalUntil.Some? || ep.leader.None? || ep.leader == Some(s)
  }

  lemma {:induction false} GateLocal(s: SessionId, x: Session, ep: Option<Episode>, clock: real, next: nat, budget: nat)
    requires Pair(s, x, ep, clock, budget) && ShapeOf(ep, next) && x.pc.AtLock?
    ensures var c := GatePass(s, x, ep, clock, next);
            && (ep.None? ==> c.x.pc == AtRate(Normal) && c.ep.None?)
            && (ep.Some? && OnHoldAt(ep.value, clock) ==> c.x.pc == Ended(RecoveryExhausted(ep.value.lastError)) && c.ep == ep)
            && (ep.Some? && !OnHoldAt(ep.value, clock) && Takeable(s, ep.value) ==>
                  && c.ep.Some? && c.ep.value.leader == Some(s) && c.ep.value.terminalUntil.None?
                  && var ready := if ep.value.terminalUntil.Some? then clock else ep.value.readyAt;
                  && c.ep.value.readyAt == ready && s !in c.ep.value.waiters
                  && c.x.pc == if ready <= clock then AtRate(Probe(c.ep.value.generation, clock)) else Sleeping(c.ep.value.generation))
            && (ep.Some? && !OnHoldAt(ep.value, clock) && !Takeable(s, ep.value) ==>
                  && c.x.pc == Parked(ep.value.generation, false) && c.ep == Some(ep.value.(waiters := ep.value.waiters + {s})))
            && c.x == x.(pc := c.x.pc)
  {
  }

  /** What the gate answers.  With no episode, a normal permit.  During a hold, the episode's error.  Otherwise a session that
      may lead leads, with the probe at once if the episode is ready (one whose hold is over is), or asleep until it is;
      and any other waits in the waiter set of the episode, which stays as it is. */
  lemma {:induction false} GateAnswers(st: State, s: SessionId)
    requires Inv(st) && s in st.sessions && st.sessions[s].pc.AtLock?
    ensures Enabled(st, Do(s, EnterGate))
    ensures var st', m := Step(st, Do(s, EnterGate)), st.sessions[s].model;
            var pc, ep := st'.sessions[s].pc, EpisodeOf(st, m);
            && (pc == AtRate(Normal) <==> ep.None?)
            && (forall error :: pc == Ended(RecoveryExhausted(error)) <==>
                  ep.Some? && OnHoldAt(ep.value, st.clock) && ep.value.lastError == error)
            && (Leads(st', m, s) <==> ep.Some? && !OnHoldAt(ep.value, st.clock) && Takeable(s, ep.value))
            && (Leads(st', m, s) ==>
                  var ready := if ep.value.terminalUntil.Some? then st.clock else ep.value.readyAt;
                  && st'.episodes[m].readyAt == ready && st'.episodes[m].terminalUntil.None?
                  && if ready <= st.clock then pc == AtRate(Probe(st'.episodes[m].generation, st.clock))
                     else pc == Sleeping(st'.episodes[m].generation))
            && (pc.Parked? <==> ep.Some? && !OnHoldAt(ep.value, st.clock) && !Takeable(s, ep.value))
            && (pc.Parked? ==> EpisodeOf(st', m) == Some(ep.value.(waiters := ep.value.waiters + {s})))
  {
    hide Inv, Pair, Step, GatePass;
    PairOf(st, s);
    Effects(st, s, EnterGate);
    GateLocal(s, st.sessions[s], EpisodeOf(st, st.sessions[s].model), st.clock, st.nextGeneration, st.budget);
    if EpisodeOf(st, st.sessions[s].model).Some? {
      LeaderIsNotOnHold(st.episodes[st.sessions[s].model], st.nextGeneration);
    }
  }

  lemma {:induction false} LeaderIsNotOnHold(ep: Episode, next: nat)
    requires Shape(ep, next)
    ensures ep.terminalUntil.Some? ==> ep.leader.None?
  {
  }

  // ----- how an episode ends -----

  /** The probe of the model's episode succeeds, or is finally rejected. */
  ghost predicate ClosesEpisode(st: State, a: Action, m: Model) {
    && a.Do? && (a.op.Succeed? || a.op.Reject?) && a.s in st.sessions && st.sessions[a.s].model == m
    && st.sessions[a.s].pc.Holding? && MatchesProbe(a.s, st.sessions[a.s].pc.attempt.permit, EpisodeOf(st, m))
  }

  /** A retryable failure of a session of the model. */
  ghost predicate FailsFor(st: State, a: Action, m: Model) {
    a.Do? && a.op.Fail? && a.s in st.sessions && st.sessions[a.s].model == m
  }

  lemma {:induction false} ExistenceLocal(op: Op, s: SessionId, x: Session, ep: Option<Episode>, clock: real, next: nat,
                                          budget: nat, rate: Window.PassResult)
    requires OpEnabled(op, x)
    ensures var c := SessionStep(op, s, x, ep, clock, next, budget, rate);
            && (ep.Some? ==> (c.ep.None? <==>
                  (op.Succeed? || op.Reject?) && x.pc.Holding? && MatchesProbe(s, x.pc.attempt.permit, ep)))
            && (ep.None? ==> (c.ep.Some? <==> op.Fail?))
  {
  }

  /** Every step: an episode ends exactly by the success or the rejection of its probe, and one begins exactly by a retryable
      failure for a model that has none. */
  lemma {:induction false} EpisodesBeginAndEndExactly(st: State, a: Action, m: Model)
    requires Inv(st) && Enabled(st, a)
    ensures m in st.episodes ==> (m !in Step(st, a).episodes <==> ClosesEpisode(st, a, m))
    ensures m !in st.episodes ==> (m in Step(st, a).episodes <==> FailsFor(st, a, m))
  {
    hide Inv, SessionStep, OpEnabled;
    if a.Do? {
      var x := st.sessions[a.s];
      Effects(st, a.s, a.op);
      hide Step;
      ExistenceLocal(a.op, a.s, x, EpisodeOf(st, x.model), st.clock, st.nextGeneration, st.budget, RateResult(st, a.s, a.op).1);
      assert m != x.model ==> EpisodeOf(Step(st, a), m) == EpisodeOf(st, m);
    }
  }

  ghost predicate EverCloses(st: State, run: seq<Action>, m: Model)
    requires LegalRun(st, run)
    decreases |run|
  {
    run != [] && (ClosesEpisode(st, run[0], m) || EverCloses(Step(st, run[0]), run[1..], m))
  }

  ghost predicate EverFails(st: State, run: seq<Action>, m: Model)
    requires LegalRun(st, run)
    decreases |run|
  {
    run != [] && (FailsFor(st, run[0], m) || EverFails(Step(st, run[0]), run[1..], m))
  }

  /** Over every run: an episode that is gone at the end was closed by its probe's success or rejection, and one that is there
      at the end and was not at the start was begun by a failure. */
  lemma {:induction false} EpisodesLast(st: State, run: seq<Action>, m: Model)
    requires Inv(st) && LegalRun(st, run)
    ensures m in st.episodes && m !in After(st, run).episodes ==> EverCloses(st, run, m)
    ensures m !in st.episodes && m in After(st, run).episodes ==> EverFails(st, run, m)
    ensures m !in st.episodes && !EverFails(st, run, m) ==> m !in After(st, run).episodes
    decreases |run|
  {
    hide Inv, Step, ClosesEpisode, FailsFor;
    if run != [] {
      StepKeepsInv(st, run[0]);
      EpisodesBeginAndEndExactly(st, run[0], m);
      EpisodesLast(Step(st, run[0]), run[1..], m);
    }
  }

  lemma {:induction false} ClosingLocal(op: Op, s: SessionId, x: Session, ep: Option<Episode>, clock: real, next: nat,
                                        budget: nat, rate: Window.PassResult)
    requires (op.Succeed? || op.Reject?) && Pair(s, x, ep, clock, budget)
    requires OpEnabled(op, x) && MatchesProbe(s, x.pc.attempt.permit, ep)
    ensures var c := SessionStep(op, s, x, ep, clock, next, budget, rate);
            c.notify && c.doom.None? && c.ep.None?
            && c.x == x.(pc := Holding(x.pc.attempt.(resolved := true, accepted := op.Succeed?)))
  {
  }

  /** Success, or a final rejection, of the probe reopens the gate: the model has no episode, every session of it that waits is
      notified, and each of them without a terminal error, going first, leaves the gate with a normal permit; so does
      whoever arrives anew. */
  lemma {:induction false} ClosingReopensTheGate(st: State, s: SessionId, op: Op, t: SessionId)
    requires Inv(st) && (op.Succeed? || op.Reject?) && Enabled(st, Do(s, op)) && ClosesEpisode(st, Do(s, op), st.sessions[s].model)
    ensures var st', m := Step(st, Do(s, op)), st.sessions[s].model;
            && m !in st'.episodes
            && st'.sessions[s].pc.attempt.accepted == op.Succeed?
            && (t in st.sessions && st.sessions[t].pc.Parked? ==> st'.sessions[t].pc == Parked(st.sessions[t].pc.generation, true))
            && (t in st.sessions && st.sessions[t].model == m && st.sessions[t].pc.Parked? && st.sessions[t].terminal.None? ==>
                  PassesFreely(st', t))
            && (t !in st.sessions ==> ArrivesFreely(st', t, m))
  {
    hide Inv, Pair, SessionStep;
    Effects(st, s, op);
    var x := st.sessions[s];
    var m := x.model;
    PairOf(st, s);
    ClosingLocal(op, s, x, EpisodeOf(st, m), st.clock, st.nextGeneration, st.budget, RateResult(st, s, op).1);
    StepKeepsInv(st, Do(s, op));
    hide Step;
    var st' := Step(st, Do(s, op));
    assert EpisodeOf(st', m).None?;
    if t in st.sessions && st.sessions[t].model == m && st.sessions[t].pc.Parked? && st.sessions[t].terminal.None? {
      assert t != s;
      WokenPassesFreely(st', t);
    }
    if t !in st.sessions {
      NewcomerPassesFreely(st', t, m);
    }
  }

  /** Woken and first through the gate, it gets a normal permit. */
  ghost predicate PassesFreely(st: State, t: SessionId) {
    && Enabled(st, Do(t, WakeParked))
    && var woken := Step(st, Do(t, WakeParked));
    Enabled(woken, Do(t, EnterGate)) && Step(woken, Do(t, EnterGate)).sessions[t].pc == AtRate(Normal)
  }

  ghost predicate ArrivesFreely(st: State, t: SessionId, m: Model) {
    && Enabled(st, Start(t, m))
    && var arrived := Step(st, Start(t, m));
    Enabled(arrived, Do(t, EnterGate)) && Step(arrived, Do(t, EnterGate)).sessions[t].pc == AtRate(Normal)
  }

  lemma {:induction false} Woken(st: State, t: SessionId)
    requires Inv(st) && t in st.sessions && st.sessions[t].pc.Parked? && st.sessions[t].pc.notified && st.sessions[t].terminal.None?
    ensures Enabled(st, Do(t, WakeParked)) && Inv(Step(st, Do(t, WakeParked)))
    ensures var woken := Step(st, Do(t, WakeParked));
            && t in woken.sessions && woken.sessions[t] == st.sessions[t].(pc := AtLock) && woken.clock == st.clock
            && EpisodeOf(woken, st.sessions[t].model) == EpisodeOf(st, st.sessions[t].model)
  {
    hide Inv;
    PairOf(st, t);
    Effects(st, t, WakeParked);
    StepKeepsInv(st, Do(t, WakeParked));
  }

  lemma {:induction false} WokenPassesFreely(st: State, t: SessionId)
    requires Inv(st) && t in st.sessions && st.sessions[t].pc.Parked? && st.sessions[t].pc.notified && st.sessions[t].terminal.None?
    requires EpisodeOf(st, st.sessions[t].model).None?
    ensures PassesFreely(st, t)
  {
    hide Inv, Step, Enabled;
    Woken(st, t);
    GateAnswers(Step(st, Do(t, WakeParked)), t);
  }

  lemma {:induction false} NewcomerPassesFreely(st: State, t: SessionId, m: Model)
    requires Inv(st) && t !in st.sessions && EpisodeOf(st, m).None?
    ensures ArrivesFreely(st, t, m)
  {
    hide Inv;
    PositiveLimit(st);
    StepKeepsInv(st, Start(t, m));
    var arrived := Step(st, Start(t, m));
    assert arrived.sessions[t] == Session(m, 0, None, None, AtLock) && EpisodeOf(arrived, m).None?;
    GateAnswers(arrived, t);
  }

  lemma {:induction false} PositiveLimit(st: State)
    requires Inv(st)
    ensures st.window.limit > 0
  {
    InvParts(st);
    Window.InvPositive(st.window, st.clock);
  }

  // ----- retryable failures and their delays -----

  lemma {:induction false} FailureLocal(s: SessionId, x: Session, ep: Option<Episode>, clock: real, next: nat, budget: nat,
                                        error: Error, delay: real, hold: real)
    requires Pair(s, x, ep, clock, budget) && ShapeOf(ep, next) && x.pc.Holding? && !x.pc.attempt.resolved
    ensures var c := FailPass(s, x, ep, clock, next, budget, error, delay, hold);
            && c.x.pc.Holding? && c.x.pc.attempt.resolved && !c.x.pc.attempt.accepted && c.x.started == x.started
            && (c.x.pc.attempt.again <==> x.started < budget)
            && (x.started < budget && (ep.None? || MatchesProbe(s, x.pc.attempt.permit, ep)) ==>
                  && c.ep.Some? && c.ep.value.leader == Some(s) && !c.ep.value.probeActive && c.ep.value.terminalUntil.None?
                  && c.ep.value.readyAt == clock + delay && c.ep.value.lastError == error && c.x.terminal == x.terminal
                  && c.ep.value.waiters == (if ep.None? then {} else ep.value.waiters))
            && (x.started < budget && ep.Some? && !MatchesProbe(s, x.pc.attempt.permit, ep) ==>
                  if ep.value.terminalUntil.Some? then c.ep == ep && c.x.terminal == Some(ep.value.lastError)
                  else c.ep == Some(ep.value.(waiters := ep.value.waiters + {s})) && c.x.terminal == x.terminal)
            && (x.started >= budget && ep.Some? && !MatchesProbe(s, x.pc.attempt.permit, ep) ==> c.ep == ep)
            && (x.started < budget ==> c.notify && c.doom.None?)
  {
  }

  /** A retryable failure.  The driver may try again exactly while its budget lasts.  With no episode, or as the probe of one,
      its session leads, the episode is ready once the delay has passed, and the error is the episode's.  Otherwise it
      joins the waiters of a live episode, or takes the error of an exhausted one. */
  lemma {:induction false} FailuresAreCoordinated(st: State, s: SessionId, error: Error, delay: real, hold: real)
    requires Inv(st) && Enabled(st, Do(s, Fail(error, delay, hold)))
    ensures var st', x := Step(st, Do(s, Fail(error, delay, hold))), st.sessions[s];
            var m, ep := x.model, EpisodeOf(st, x.model);
            var probe := MatchesProbe(s, x.pc.attempt.permit, ep);
            && (st'.sessions[s].pc.attempt.again <==> x.started < st.budget)
            && (x.started < st.budget && (ep.None? || probe) ==>
                  BacksOff(st', m, st.clock + delay) && Leads(st', m, s) && st'.episodes[m].lastError == error)
            && (x.started < st.budget && ep.Some? && !probe && ep.value.terminalUntil.None? ==>
                  m in st'.episodes && st'.episodes[m] == ep.value.(waiters := ep.value.waiters + {s}))
            && (x.started < st.budget && ep.Some? && !probe && ep.value.terminalUntil.Some? ==>
                  EpisodeOf(st', m) == ep && st'.sessions[s].terminal == Some(ep.value.lastError))
            && (x.started >= st.budget && ep.Some? && !probe ==> EpisodeOf(st', m) == ep)
  {
    hide Inv, Pair, Step, FailPass, MatchesProbe;
    PairOf(st, s);
    Effects(st, s, Fail(error, delay, hold));
    FailureLocal(s, st.sessions[s], EpisodeOf(st, st.sessions[s].model), st.clock, st.nextGeneration, st.budget, error, delay, hold);
  }

  /** A live episode between probes, ready at the given time. */
  ghost predicate BacksOff(st: State, m: Model, ready: real) {
    && m in st.episodes && st.episodes[m].terminalUntil.None? && !st.episodes[m].probeActive && st.episodes[m].readyAt == ready
  }

  /** Whoever leads the model's episode is cancelled inside the gate, outside its backoff sleep. */
  ghost predicate LeaderOrphaned(st: State, a: Action, m: Model) {
    a.Do? && a.op.Orphan? && a.s in st.sessions && st.sessions[a.s].model == m && Leads(st, m, a.s)
  }

  lemma {:induction false} BackingLocal(op: Op, s: SessionId, x: Session, ep: Option<Episode>, clock: real, next: nat,
                                        budget: nat, rate: Window.PassResult)
    requires Pair(s, x, ep, clock, budget) && ShapeOf(ep, next) && OpEnabled(op, x)
    requires ep.Some? && ep.value.terminalUntil.None? && !ep.value.probeActive && clock < ep.value.readyAt
    requires op.Orphan? ==> ep.value.leader != Some(s)
    ensures var c := SessionStep(op, s, x, ep, clock, next, budget, rate);
            && c.ep.Some? && c.ep.value.terminalUntil.None? && !c.ep.value.probeActive
            && c.ep.value.readyAt == ep.value.readyAt && c.ep.value.generation == ep.value.generation
            && c.x.started == x.started
  {
    hide SessionStep, Budgeted, IdleLeader, WaiterPc;
    BackingByOp(op, s, x, ep, clock, next, budget, rate);
  }

  lemma {:induction false} BackingByOp(op: Op, s: SessionId, x: Session, ep: Option<Episode>, clock: real, next: nat,
                                       budget: nat, rate: Window.PassResult)
    requires OpEnabled(op, x) && (LivePermit(x.pc).Some? ==> ProbeOwner(s, LivePermit(x.pc).value, ep, clock))
    requires ep.Some? && ep.value.terminalUntil.None? && !ep.value.probeActive && clock < ep.value.readyAt
    requires op.Orphan? ==> ep.value.leader != Some(s)
    ensures var c := SessionStep(op, s, x, ep, clock, next, budget, rate);
            && c.ep.Some? && c.ep.value.terminalUntil.None? && !c.ep.value.probeActive
            && c.ep.value.readyAt == ep.value.readyAt && c.ep.value.generation == ep.value.generation
            && c.x.started == x.started
  {
  }

  lemma {:induction false} BackingStep(st: State, a: Action, m: Model, ready: real)
    requires Inv(st) && Enabled(st, a) && BacksOff(st, m, ready) && st.clock < ready && !LeaderOrphaned(st, a, m)
    ensures BacksOff(Step(st, a), m, ready) && Step(st, a).episodes[m].generation == st.episodes[m].generation
    ensures forall t | t in Step(st, a).sessions && Step(st, a).sessions[t].model == m ::
              Step(st, a).sessions[t].started == StartedIn(st, t)
  {
    hide Inv, Pair, SessionStep, OpEnabled;
    SessionsAcrossAStep(st, a);
    if a.Do? {
      var x := st.sessions[a.s];
      PairOf(st, a.s);
      Effects(st, a.s, a.op);
      if x.model == m {
        BackingLocal(a.op, a.s, x, EpisodeOf(st, m), st.clock, st.nextGeneration, st.budget, RateResult(st, a.s, a.op).1);
      }
      hide Step;
      assert m != x.model ==> EpisodeOf(Step(st, a), m) == EpisodeOf(st, m);
    }
  }

  ghost predicate NoLeaderOrphaned(st: State, run: seq<Action>, m: Model)
    requires LegalRun(st, run)
    decreases |run|
  {
    run == [] || (!LeaderOrphaned(st, run[0], m) && NoLeaderOrphaned(Step(st, run[0]), run[1..], m))
  }

  lemma {:induction false} RunKeepsBackingOff(st: State, run: seq<Action>, m: Model, ready: real)
    requires Inv(st) && LegalRun(st, run) && BacksOff(st, m, ready) && After(st, run).clock < ready && NoLeaderOrphaned(st, run, m)
    ensures BacksOff(After(st, run), m, ready) && After(st, run).episodes[m].generation == st.episodes[m].generation
    ensures st.sessions.Keys <= After(st, run).sessions.Keys
    ensures forall t | t in st.sessions :: After(st, run).sessions[t].model == st.sessions[t].model
    ensures forall t | t in After(st, run).sessions && After(st, run).sessions[t].model == m ::
              After(st, run).sessions[t].started == StartedIn(st, t)
    decreases |run|
  {
    hide Inv, Step, BacksOff, LeaderOrphaned;
    if run != [] {
      var next := Step(st, run[0]);
      StepKeepsInv(st, run[0]);
      ClockGrows(next, run[1..]);
      StepClock(st, run[0]);
      BackingStep(st, run[0], m, ready);
      SessionsAcrossAStep(st, run[0]);
      RunKeepsBackingOff(next, run[1..], m, ready);
    }
  }

  /** No leader is about to give up its leadership as orphaned. */
  ghost predicate NoOrphanLeads(st: State) {
    forall m, s | Leads(st, m, s) && s in st.sessions :: !st.sessions[s].pc.Orphaning?
  }

  lemma {:induction false} OrphaningLocal(op: Op, s: SessionId, x: Session, ep: Option<Episode>, clock: real, next: nat,
                                          budget: nat, rate: Window.PassResult)
    requires Pair(s, x, ep, clock, budget) && OpEnabled(op, x) && op != CancelAtLock
    ensures var c := SessionStep(op, s, x, ep, clock, next, budget, rate);
            c.x.pc.Orphaning? && c.ep.Some? ==> c.ep.value.leader != Some(s)
  {
    hide SessionStep, Pair;
    if op.CancelParked? || op.Yield? {
      OrphanedHere(op, s, x, ep, clock, next, budget, rate);
    } else {
      OthersOrphanNobody(op, s, x, ep, clock, next, budget, rate);
    }
  }

  lemma {:induction false} OrphanedHere(op: Op, s: SessionId, x: Session, ep: Option<Episode>, clock: real, next: nat,
                                          budget: nat, rate: Window.PassResult)
    requires Pair(s, x, ep, clock, budget) && OpEnabled(op, x) && (op.CancelParked? || op.Yield?)
    ensures var c := SessionStep(op, s, x, ep, clock, next, budget, rate);
            c.x.pc.Orphaning? && c.ep.Some? ==> c.ep.value.leader != Some(s)
  {
  }

  lemma {:induction false} OthersOrphanNobody(op: Op, s: SessionId, x: Session, ep: Option<Episode>, clock: real, next: nat,
                                              budget: nat, rate: Window.PassResult)
    requires OpEnabled(op, x) && op != CancelAtLock && !op.CancelParked? && !op.Yield?
    ensures !SessionStep(op, s, x, ep, clock, next, budget, rate).x.pc.Orphaning?
  {
  }

  lemma {:induction false} StepKeepsNoOrphanLeads(st: State, a: Action)
    requires Inv(st) && NoOrphanLeads(st) && Enabled(st, a) && Prudent(st, a)
    ensures NoOrphanLeads(Step(st, a)) && !exists m :: LeaderOrphaned(st, a, m)
  {
    hide Inv, SessionStep, Pair;
    var st' := Step(st, a);
    forall m, s | Leads(st', m, s) && s in st'.sessions ensures !st'.sessions[s].pc.Orphaning? {
      LeadersAcrossAStep(st, a, m, s);
      if a.Do? {
        var x := st.sessions[a.s];
        Effects(st, a.s, a.op);
        PairOf(st, a.s);
        LeaderKnown(st', m, s) by { StepKeepsInv(st, a); }
        if a.s == s {
          OrphaningLocal(a.op, s, x, EpisodeOf(st, x.model), st.clock, st.nextGeneration, st.budget, RateResult(st, s, a.op).1);
          SessionsAcrossAStep(st, a);
        }
      } else {
        LeaderKnown(st, m, s);
      }
    }
  }

  lemma {:induction false} PrudentLeadersAreNotOrphaned(st: State, run: seq<Action>, m: Model)
    requires Inv(st) && NoOrphanLeads(st) && LegalRun(st, run) && PrudentRun(st, run)
    ensures NoLeaderOrphaned(st, run, m) && NoOrphanLeads(After(st, run))
    decreases |run|
  {
    hide Inv, Step, NoOrphanLeads, Prudent, LeaderOrphaned;
    if run != [] {
      StepKeepsInv(st, run[0]);
      StepKeepsNoOrphanLeads(st, run[0]);
      PrudentLeadersAreNotOrphaned(Step(st, run[0]), run[1..], m);
    }
  }

  /** The delay after a retryable failure is kept.  Over every prudent run from the start in which a failure puts its session in
      charge of the model's recovery, and every prudent run after it that ends before the delay has passed: no session of the
      model, already there or started meanwhile, starts an attempt. */
  lemma {:induction false} NoAttemptBeforeTheDelay(
      clock: real, budget: nat, capacity: nat, limit: int, width: real, before: seq<Action>,
      s: SessionId, error: Error, delay: real, hold: real, after: seq<Action>, t: SessionId)
    requires budget > 0 && limit > 0 && width > 0.0
    requires var init := InitialState(clock, budget, capacity, limit, width); LegalRun(init, before) && PrudentRun(init, before)
    requires var st := After(InitialState(clock, budget, capacity, limit, width), before);
             var fail := Do(s, Fail(error, delay, hold));
             && Enabled(st, fail) && Prudent(st, fail) && LegalRun(Step(st, fail), after) && PrudentRun(Step(st, fail), after)
             && After(Step(st, fail), after).clock < st.clock + delay
             && st.sessions[s].started < st.budget
             && var ep := EpisodeOf(st, st.sessions[s].model); ep.None? || MatchesProbe(s, st.sessions[s].pc.attempt.permit, ep)
    ensures var st := After(InitialState(clock, budget, capacity, limit, width), before);
            var end := After(Step(st, Do(s, Fail(error, delay, hold))), after);
            t in end.sessions && end.sessions[t].model == st.sessions[s].model ==> end.sessions[t].started == StartedIn(st, t)
  {
    hide Inv, Step, BacksOff, NoOrphanLeads, Prudent, MatchesProbe, PrudentRun, LegalRun, OpEnabled;
    var init := InitialState(clock, budget, capacity, limit, width);
    var fail := Do(s, Fail(error, delay, hold));
    InitialInv(clock, budget, capacity, limit, width);
    NobodyLeadsAtFirst(init);
    RunKeepsInv(init, before);
    var st := After(init, before);
    var m := st.sessions[s].model;
    PrudentLeadersAreNotOrphaned(init, before, m);
    FailuresAreCoordinated(st, s, error, delay, hold);
    StepKeepsInv(st, fail);
    StepKeepsNoOrphanLeads(st, fail);
    PrudentLeadersAreNotOrphaned(Step(st, fail), after, m);
    FailureStartsNothing(st, fail);
    RunKeepsBackingOff(Step(st, fail), after, m, st.clock + delay);
    assert StartedIn(Step(st, fail), t) == StartedIn(st, t);
  }

  lemma {:induction false} NobodyLeadsAtFirst(st: State)
    requires st.episodes == map[]
    ensures NoOrphanLeads(st)
  {
  }

  lemma {:induction false} FailureStartsNothing(st: State, a: Action)
    requires Inv(st) && Enabled(st, a) && a.Do? && a.op.Fail?
    ensures Step(st, a).sessions.Keys == st.sessions.Keys
    ensures forall t :: StartedIn(Step(st, a), t) == StartedIn(st, t)
    ensures Step(st, a).clock == st.clock
  {
    hide Inv, Pair, SessionStep, OpEnabled;
    var x := st.sessions[a.s];
    Effects(st, a.s, a.op);
    OthersClaimNothing(a.op, a.s, x, EpisodeOf(st, x.model), st.clock, st.nextGeneration, st.budget, RateResult(st, a.s, a.op).1);
  }

  // ----- a stream that fails after it was accepted -----

  /** The session keeps its own backoff until that time. */
  ghost predicate BacksOffAlone(st: State, s: SessionId, until: real) {
    s in st.sessions && st.sessions[s].notBefore == Some(until)
  }

  /** Its driver may try again exactly while its budget lasts, after its own backoff; no episode changes. */
  lemma {:induction false} AcceptedFailuresBackOffAlone(st: State, s: SessionId, backoff: real)
    requires Inv(st) && Enabled(st, Do(s, AcceptedFail(backoff)))
    ensures var st', x := Step(st, Do(s, AcceptedFail(backoff))), st.sessions[s];
            && st'.episodes == st.episodes
            && if x.started < st.budget then BacksOffAlone(st', s, st.clock + backoff) && st'.sessions[s].pc.attempt.again
               else st'.sessions[s] == x
  {
    hide Inv;
    SamePut(st.episodes, st.sessions[s].model);
  }

  lemma {:induction false} AloneLocal(op: Op, s: SessionId, x: Session, ep: Option<Episode>, clock: real, next: nat,
                                      budget: nat, rate: Window.PassResult, until: real)
    requires Pair(s, x, ep, clock, budget) && OpEnabled(op, x) && x.notBefore == Some(until) && clock < until && !op.AcceptedFail?
    ensures var c := SessionStep(op, s, x, ep, clock, next, budget, rate); c.x.notBefore == Some(until) && c.x.started == x.started
  {
  }

  lemma {:induction false} AloneStep(st: State, a: Action, s: SessionId, until: real)
    requires Inv(st) && Enabled(st, a) && BacksOffAlone(st, s, until) && st.clock < until
    requires !(a.Do? && a.s == s && a.op.AcceptedFail?)
    ensures BacksOffAlone(Step(st, a), s, until) && Step(st, a).sessions[s].started == st.sessions[s].started
  {
    hide Inv, Pair, SessionStep, OpEnabled;
    if a.Do? {
      PairOf(st, a.s);
      Effects(st, a.s, a.op);
      if a.s == s {
        var x := st.sessions[s];
        AloneLocal(a.op, s, x, EpisodeOf(st, x.model), st.clock, st.nextGeneration, st.budget, RateResult(st, s, a.op).1, until);
      }
    }
  }

  /** Over every run that ends before a session's own backoff does, the session starts no attempt. */
  lemma {:induction false} NoAttemptBeforeOwnBackoff(st: State, run: seq<Action>, s: SessionId, until: real)
    requires Inv(st) && LegalRun(st, run) && BacksOffAlone(st, s, until) && After(st, run).clock < until
    requires forall k | 0 <= k < |run| :: !(run[k].Do? && run[k].s == s && run[k].op.AcceptedFail?)
    ensures BacksOffAlone(After(st, run), s, until) && After(st, run).sessions[s].started == st.sessions[s].started
    decreases |run|
  {
    hide Inv, Step;
    if run != [] {
      StepKeepsInv(st, run[0]);
      ClockGrows(Step(st, run[0]), run[1..]);
      StepClock(st, run[0]);
      AloneStep(st, run[0], s, until);
      NoAttemptBeforeOwnBackoff(Step(st, run[0]), run[1..], s, until);
    }
  }

  // ----- corrections -----

  lemma {:induction false} CorrectionLocal(s: SessionId, x: Session, ep: Option<Episode>, clock: real, next: nat, budget: nat,
                                           rate: Window.PassResult)
    requires Pair(s, x, ep, clock, budget) && OpEnabled(Correct, x) && MatchesProbe(s, x.pc.attempt.permit, ep)
    ensures var c := SessionStep(Correct, s, x, ep, clock, next, budget, rate);
            && c.x == x.(pc := Holding(x.pc.attempt.(resolved := true, again := true))) && x.notBefore.None?
            && c.ep == Some(ep.value.(probeActive := false, readyAt := clock)) && c.notify && c.doom.None?
  {
  }

  /** After a corrected request the probe is tried again at once: reopened with budget left and no terminal error, the session
      leaves the gate with a new probe of the same episode, granted at the time of the correction. */
  lemma {:induction false} CorrectionProbesAgainAtOnce(st: State, s: SessionId)
    requires Inv(st) && Enabled(st, Do(s, Correct)) && st.sessions[s].started < st.budget && st.sessions[s].terminal.None?
    requires MatchesProbe(s, st.sessions[s].pc.attempt.permit, EpisodeOf(st, st.sessions[s].model))
    ensures var corrected := Step(st, Do(s, Correct));
            && Enabled(corrected, Do(s, Close(true)))
            && var reopened := Step(corrected, Do(s, Close(true)));
            && Enabled(reopened, Do(s, EnterGate))
            && Step(reopened, Do(s, EnterGate)).sessions[s].pc == AtRate(Probe(st.sessions[s].pc.attempt.permit.generation, st.clock))
  {
    hide Inv, Pair, Step, SessionStep;
    var x := st.sessions[s];
    PairOf(st, s);
    Effects(st, s, Correct);
    CorrectionLocal(s, x, EpisodeOf(st, x.model), st.clock, st.nextGeneration, st.budget, RateResult(st, s, Correct).1);
    StepKeepsInv(st, Do(s, Correct));
    var corrected := Step(st, Do(s, Correct));
    PositiveLimit(corrected);
    Effects(corrected, s, Close(true));
    ReopenLocal(s, corrected.sessions[s], EpisodeOf(corrected, x.model), corrected.clock, corrected.nextGeneration, corrected.budget,
                RateResult(corrected, s, Close(true)).1);
    StepKeepsInv(corrected, Do(s, Close(true)));
    var reopened := Step(corrected, Do(s, Close(true)));
    GateAnswers(reopened, s);
    GenerationKept(reopened, s);
  }

  lemma {:induction false} ReopenLocal(s: SessionId, x: Session, ep: Option<Episode>, clock: real, next: nat, budget: nat,
                                       rate: Window.PassResult)
    requires x.pc.Holding? && x.pc.attempt.resolved && x.pc.attempt.again
    requires x.started < budget && x.terminal.None? && x.notBefore.None?
    ensures OpEnabled(Close(true), x)
    ensures var c := SessionStep(Close(true), s, x, ep, clock, next, budget, rate); c.x == x.(pc := AtLock) && c.ep == ep
  {
  }

  /** A session that leads already goes through the gate within the same generation. */
  lemma {:induction false} GenerationKept(st: State, s: SessionId)
    requires Inv(st) && s in st.sessions && st.sessions[s].pc.AtLock? && Enabled(st, Do(s, EnterGate))
    requires Leads(st, st.sessions[s].model, s)
    ensures var m, st' := st.sessions[s].model, Step(st, Do(s, EnterGate));
            m in st'.episodes && st'.episodes[m].generation == st.episodes[m].generation
  {
    hide Inv, Pair, Step;
    PairOf(st, s);
    Effects(st, s, EnterGate);
    LeaderIsNotOnHold(st.episodes[st.sessions[s].model], st.nextGeneration);
  }

  // ----- probes and leadership given back -----

  /** The step gives back a probe, or a leadership, that its session holds. */
  ghost predicate GivesBack(st: State, s: SessionId, op: Op) {
    && s in st.sessions && OpEnabled(op, st.sessions[s])
    && var x, ep := st.sessions[s], EpisodeOf(st, st.sessions[s].model);
    && ep.Some?
    && (|| ((op.Drop? || op.Release?) && MatchesProbe(s, x.pc.permit, ep))
        || ((op.Yield? || op.Orphan?) && ep.value.leader == Some(s)))
  }

  lemma {:induction false} GivingBackLocal(op: Op, s: SessionId, x: Session, ep: Option<Episode>, clock: real, next: nat, budget: nat,
                                           rate: Window.PassResult)
    requires Pair(s, x, ep, clock, budget) && OpEnabled(op, x) && ep.Some?
    requires ((op.Drop? || op.Release?) && MatchesProbe(s, x.pc.permit, ep)) || ((op.Yield? || op.Orphan?) && ep.value.leader == Some(s))
    ensures var c := SessionStep(op, s, x, ep, clock, next, budget, rate);
            && c.notify && c.doom.None? && !c.x.pc.Parked?
            && c.ep == Some(ep.value.(leader := None, probeActive := false, readyAt := if op.Yield? then ep.value.readyAt else clock))
            && ep.value.terminalUntil.None?
  {
  }

  /** Whoever gives back a probe or a leadership leaves the episode to the next: everyone who waits is notified, and the first of
      the model's waiting sessions without a terminal error to go through the gate leads.  It gets the probe at once, or, where
      the leader was cancelled in its backoff sleep, sleeps until the episode is ready. */
  lemma {:induction false} GivenBackIsTakenOver(st: State, s: SessionId, op: Op, t: SessionId)
    requires Inv(st) && Enabled(st, Do(s, op)) && GivesBack(st, s, op)
    requires t in st.sessions && st.sessions[t].model == st.sessions[s].model && st.sessions[t].pc.Parked? && st.sessions[t].terminal.None?
    ensures var left, m := Step(st, Do(s, op)), st.sessions[s].model;
            var ready := if op.Yield? then st.episodes[m].readyAt else st.clock;
            && Enabled(left, Do(t, WakeParked))
            && var woken := Step(left, Do(t, WakeParked));
            && Enabled(woken, Do(t, EnterGate))
            && var st' := Step(woken, Do(t, EnterGate));
            && Leads(st', m, t) && st'.episodes[m].readyAt == ready
            && if ready <= st.clock then st'.sessions[t].pc == AtRate(Probe(st'.episodes[m].generation, st.clock))
               else st'.sessions[t].pc == Sleeping(st'.episodes[m].generation)
  {
    hide Inv, Pair, Step, SessionStep, OpEnabled;
    var x := st.sessions[s];
    PairOf(st, s);
    Effects(st, s, op);
    GivingBackLocal(op, s, x, EpisodeOf(st, x.model), st.clock, st.nextGeneration, st.budget, RateResult(st, s, op).1);
    assert t != s by { ParkedGivesNothingBack(st, s, op); }
    StepKeepsInv(st, Do(s, op));
    var left := Step(st, Do(s, op));
    Woken(left, t);
    GateAnswers(Step(left, Do(t, WakeParked)), t);
  }

  lemma {:induction false} ParkedGivesNothingBack(st: State, s: SessionId, op: Op)
    requires GivesBack(st, s, op)
    ensures !st.sessions[s].pc.Parked?
  {
  }

  // ----- permits at the rate window and at the claim -----

  /** A pass of the rate window with a permit that is no longer current records nothing and gives the permit up; with a current
      one it records an admission exactly when the window has room, and otherwise waits. */
  lemma {:induction false} OnlyCurrentPermitsAreRecorded(st: State, s: SessionId)
    requires Inv(st) && Enabled(st, Do(s, RatePass))
    ensures var st', x := Step(st, Do(s, RatePass)), st.sessions[s];
            var w := st.window;
            var room := Window.CountIn(Window.Stamps(w.log), st.clock - w.width, st.clock) < w.limit;
            var current := PermitIsCurrent(s, x.pc.permit, EpisodeOf(st, x.model));
            && st'.window.log == (if room && current then w.log + [Window.Admission(st.clock, w.limit)] else w.log)
            && st'.sessions[s] == x.(pc := if !room then x.pc else if current then AtSlot(x.pc.permit) else Dropping(x.pc.permit, false))
  {
    hide Inv, Window.Inv, PermitIsCurrent, Window.CountIn, Window.Stamps, Window.After;
    InvParts(st);
    Window.InvPositive(st.window, st.clock);
    Window.AdmitsExactlyWhenRoom(st.window, st.clock, st.clock);
  }

  /** With the slot in hand an attempt starts exactly when the permit is still current; a stale one is given up with the slot. */
  lemma {:induction false} ClaimsExactlyWhileCurrent(st: State, s: SessionId)
    requires Inv(st) && Enabled(st, Do(s, Claim))
    ensures var st', x := Step(st, Do(s, Claim)), st.sessions[s];
            if PermitIsCurrent(s, x.pc.permit, EpisodeOf(st, x.model)) then
              && st'.sessions[s].started == x.started + 1 && st'.free == st.free
              && st'.sessions[s].pc == Holding(Attempt(x.pc.permit, false, false, false))
            else st'.sessions[s] == x.(pc := Dropping(x.pc.permit, false)) && st'.free == st.free + 1
  {
    hide Inv, PermitIsCurrent;
  }

  /** A leader back from its sleep may probe: it still leads the live episode it went to sleep for, and that is ready. */
  predicate MayProbe(s: SessionId, x: Session, ep: Option<Episode>, clock: real) {
    && x.pc.Sleeping? && ep.Some? && ep.value.generation == x.pc.generation && ep.value.terminalUntil.None?
    && ep.value.leader == Some(s) && !ep.value.probeActive && ep.value.readyAt <= clock
  }

  /** Back from its sleep a leader gets the probe exactly when it may; otherwise it goes back to the top of the gate. */
  lemma {:induction false} SleepersProbeExactly(st: State, s: SessionId)
    requires Inv(st) && Enabled(st, Do(s, Recheck))
    ensures var st', x := Step(st, Do(s, Recheck)), st.sessions[s];
            && (st'.sessions[s].pc.AtRate? <==> MayProbe(s, x, EpisodeOf(st, x.model), st.clock))
            && (st'.sessions[s].pc.AtRate? ==> st'.sessions[s].pc == AtRate(Probe(x.pc.generation, st.clock)) && st'.episodes[x.model].probeActive)
            && (!st'.sessions[s].pc.AtRate? ==>
                  st'.episodes == st.episodes
                  && st'.sessions[s].pc == if x.terminal.Some? then Ended(RecoveryExhausted(x.terminal.value)) else AtLock)
  {
    hide Inv;
    SamePut(st.episodes, st.sessions[s].model);
  }

  // ----- how a session ends -----

  /** A driver that tries again, opening once more. */
  predicate Reopens(op: Op, x: Session) {
    (op.Close? && op.reopen) || op.Reopen?
  }

  /** The session comes to the top of the gate loop. */
  predicate ComesToTheTop(op: Op, s: SessionId, x: Session, ep: Option<Episode>, clock: real, budget: nat)
    requires OpEnabled(op, x)
  {
    || (op.WakeBackoff? && (x.notBefore.None? || x.notBefore.value <= clock))
    || op.WakeParked? || (op.Recheck? && !MayProbe(s, x, ep, clock)) || (op.Drop? && !x.pc.leaving)
    || (Reopens(op, x) && x.started < budget && x.notBefore.None?)
  }

  /** The step ends the session as it should, or does not end it. */
  predicate EndsRight(op: Op, s: SessionId, x: Session, ep: Option<Episode>, clock: real, budget: nat, pc: Pc, error: Error)
    requires OpEnabled(op, x)
  {
    && (pc == Ended(Returned) <==> op == Close(false) && x.pc.attempt.resolved && x.pc.attempt.accepted)
    && (pc == Ended(Raised) <==>
          || (op == Close(false) && x.pc.attempt.resolved && !x.pc.attempt.accepted)
          || (Reopens(op, x) && x.started >= budget))
    && (pc == Ended(RecoveryExhausted(error)) <==>
          || (op.EnterGate? && ep.Some? && OnHoldAt(ep.value, clock) && ep.value.lastError == error)
          || (ComesToTheTop(op, s, x, ep, clock, budget) && x.terminal == Some(error)))
    && (pc == Ended(Cancelled) <==> op.Orphan? || op.Release? || op.CancelBackoff? || (op.Drop? && x.pc.leaving))
    && (pc == Ended(Left) <==> op == Leave)
  }

  lemma {:induction false} EndsGate(op: Op, s: SessionId, x: Session, ep: Option<Episode>, clock: real, next: nat,
                                          budget: nat, rate: Window.PassResult, error: Error)
    requires Pair(s, x, ep, clock, budget) && OpEnabled(op, x)
    requires op.EnterGate? || op.Recheck? || op.WakeBackoff? || op.WakeParked?
    ensures EndsRight(op, s, x, ep, clock, budget, SessionStep(op, s, x, ep, clock, next, budget, rate).x.pc, error)
  {
  }

  lemma {:induction false} EndsClose(op: Op, s: SessionId, x: Session, ep: Option<Episode>, clock: real, next: nat,
                                          budget: nat, rate: Window.PassResult, error: Error)
    requires Pair(s, x, ep, clock, budget) && OpEnabled(op, x)
    requires op.Close? || op.Reopen? || op.Leave?
    ensures EndsRight(op, s, x, ep, clock, budget, SessionStep(op, s, x, ep, clock, next, budget, rate).x.pc, error)
  {
  }

  lemma {:induction false} EndsDrop(op: Op, s: SessionId, x: Session, ep: Option<Episode>, clock: real, next: nat,
                                          budget: nat, rate: Window.PassResult, error: Error)
    requires Pair(s, x, ep, clock, budget) && OpEnabled(op, x)
    requires op.Drop? || op.Release? || op.Orphan? || op.Yield?
    ensures EndsRight(op, s, x, ep, clock, budget, SessionStep(op, s, x, ep, clock, next, budget, rate).x.pc, error)
  {
  }

  lemma {:induction false} EndsResolve(op: Op, s: SessionId, x: Session, ep: Option<Episode>, clock: real, next: nat,
                                          budget: nat, rate: Window.PassResult, error: Error)
    requires Pair(s, x, ep, clock, budget) && OpEnabled(op, x)
    requires op.Fail? || op.Succeed? || op.Correct? || op.Reject? || op.AcceptedFail? || op.Pause?
    ensures EndsRight(op, s, x, ep, clock, budget, SessionStep(op, s, x, ep, clock, next, budget, rate).x.pc, error)
  {
  }

  lemma {:induction false} EndsOther(op: Op, s: SessionId, x: Session, ep: Option<Episode>, clock: real, next: nat,
                                          budget: nat, rate: Window.PassResult, error: Error)
    requires Pair(s, x, ep, clock, budget) && OpEnabled(op, x)
    requires !(op.EnterGate? || op.Recheck? || op.WakeBackoff? || op.WakeParked?)
    requires !(op.Close? || op.Reopen? || op.Leave?)
    requires !(op.Drop? || op.Release? || op.Orphan? || op.Yield?)
    requires !(op.Fail? || op.Succeed? || op.Correct? || op.Reject? || op.AcceptedFail? || op.Pause?)
    ensures EndsRight(op, s, x, ep, clock, budget, SessionStep(op, s, x, ep, clock, next, budget, rate).x.pc, error)
  {
  }

  lemma {:induction false} EndingsLocal(op: Op, s: SessionId, x: Session, ep: Option<Episode>, clock: real, next: nat,
                                          budget: nat, rate: Window.PassResult, error: Error)
    requires Pair(s, x, ep, clock, budget) && OpEnabled(op, x)
    ensures EndsRight(op, s, x, ep, clock, budget, SessionStep(op, s, x, ep, clock, next, budget, rate).x.pc, error)
  {
    hide Pair, SessionStep, EndsRight;
    match op
    case EnterGate | Recheck | WakeBackoff | WakeParked => EndsGate(op, s, x, ep, clock, next, budget, rate, error);
    case Close(_) | Reopen | Leave => EndsClose(op, s, x, ep, clock, next, budget, rate, error);
    case Drop | Release | Orphan | Yield => EndsDrop(op, s, x, ep, clock, next, budget, rate, error);
    case Fail(_, _, _) | Succeed | Correct | Reject | AcceptedFail(_) | Pause => EndsResolve(op, s, x, ep, clock, next, budget, rate, error);
    case _ => EndsOther(op, s, x, ep, clock, next, budget, rate, error);
  }

  /** How a session ends.  It returns by closing an accepted attempt; it raises by closing any other for good, or by trying again
      with its budget spent; it raises the terminal error at the gate during a hold, or at its top once one is recorded; it is
      cancelled where a cancellation's cleanup is over; and it leaves between attempts. */
  lemma {:induction false} EndingsExactly(st: State, s: SessionId, op: Op, error: Error)
    requires Inv(st) && Enabled(st, Do(s, op))
    ensures var x := st.sessions[s];
            EndsRight(op, s, x, EpisodeOf(st, x.model), st.clock, st.budget, Step(st, Do(s, op)).sessions[s].pc, error)
  {
    hide Inv, Pair, SessionStep, EndsRight, OpEnabled;
    PairOf(st, s);
    Effects(st, s, op);
    hide Step;
    var x := st.sessions[s];
    EndingsLocal(op, s, x, EpisodeOf(st, x.model), st.clock, st.nextGeneration, st.budget, RateResult(st, s, op).1, error);
  }

  // ----- cancellation -----

  /** A cancellation where the session is suspended, or in its open attempt. */
  predicate Cancels(op: Op, x: Session) {
    || op.CancelBackoff? || op.CancelAtLock? || op.CancelParked? || op.CancelSleep? || op.CancelRate? || op.CancelSlot?
    || op.CancelGranted? || op.CancelDrop? || (op.Close? && x.pc.Holding? && !x.pc.attempt.resolved)
  }

  /** Only cleanup is left. */
  predicate OnItsWayOut(pc: Pc) {
    || (pc.Dropping? && pc.leaving) || pc.Yielding? || pc.Orphaning? || pc.Closing? || pc == Ended(Cancelled)
  }

  lemma {:induction false} CancellingLocal(op: Op, s: SessionId, x: Session, ep: Option<Episode>, clock: real, next: nat,
                                           budget: nat, rate: Window.PassResult)
    requires OpEnabled(op, x) && (Cancels(op, x) || OnItsWayOut(x.pc))
    ensures var c := SessionStep(op, s, x, ep, clock, next, budget, rate); OnItsWayOut(c.x.pc) && c.x.started == x.started
  {
  }

  lemma {:induction false} CancellingStep(st: State, a: Action, s: SessionId)
    requires Inv(st) && Enabled(st, a) && s in st.sessions
    requires OnItsWayOut(st.sessions[s].pc) || (a.Do? && a.s == s && Cancels(a.op, st.sessions[s]))
    ensures var st' := Step(st, a); s in st'.sessions && OnItsWayOut(st'.sessions[s].pc) && st'.sessions[s].started == st.sessions[s].started
  {
    hide Inv, SessionStep, OpEnabled, Cancels;
    if a.Do? {
      Effects(st, a.s, a.op);
      if a.s == s {
        var x := st.sessions[s];
        CancellingLocal(a.op, s, x, EpisodeOf(st, x.model), st.clock, st.nextGeneration, st.budget, RateResult(st, s, a.op).1);
      }
    }
  }

  /** Over any run, a session that was cancelled starts no attempt any more, and if it has ended, it ended as cancelled. */
  lemma {:induction false} CancelledStartNothing(st: State, run: seq<Action>, s: SessionId)
    requires Inv(st) && LegalRun(st, run) && s in st.sessions
    requires OnItsWayOut(st.sessions[s].pc) || (run != [] && run[0].Do? && run[0].s == s && Cancels(run[0].op, st.sessions[s]))
    ensures var e := After(st, run); s in e.sessions && e.sessions[s].started == st.sessions[s].started && OnItsWayOut(e.sessions[s].pc)
    decreases |run|
  {
    hide Inv, Step, Cancels, OnItsWayOut;
    if run != [] {
      StepKeepsInv(st, run[0]);
      CancellingStep(st, run[0], s);
      CancelledStartNothing(Step(st, run[0]), run[1..], s);
    }
  }

  /** A follower cancelled while it waits leaves the waiters of its own episode, and of no later one. */
  lemma {:induction false} CancelledFollowersLeave(st: State, s: SessionId)
    requires Inv(st) && Enabled(st, Do(s, CancelParked)) && st.sessions[s].pc.Parked?
    ensures var m, st' := st.sessions[s].model, Step(st, Do(s, CancelParked));
            EpisodeOf(st', m) ==
            if m in st.episodes && st.episodes[m].generation == st.sessions[s].pc.generation
            then Some(st.episodes[m].(waiters := st.episodes[m].waiters - {s})) else EpisodeOf(st, m)
  {
    hide Inv;
    Effects(st, s, CancelParked);
  }

  // ----- hedges and retuning -----

  /** A hedge takes a slot, and records an admission, exactly when the window has room; retuning changes the limit alone, never
      below one. */
  lemma {:induction false} HedgesNeedRoom(st: State, limit: int)
    requires Inv(st)
    ensures Enabled(st, Hedge) <==> st.free > 0
    ensures var w := st.window;
            var room := Window.CountIn(Window.Stamps(w.log), st.clock - w.width, st.clock) < w.limit;
            st.free > 0 ==>
              && Step(st, Hedge).hedges == st.hedges + (if room then 1 else 0) && Step(st, Hedge).free == st.free - (if room then 1 else 0)
              && Step(st, Hedge).window.log == (if room then w.log + [Window.Admission(st.clock, w.limit)] else w.log)
              && Step(st, Hedge).sessions == st.sessions && Step(st, Hedge).episodes == st.episodes
    ensures Enabled(st, Retune(limit))
    ensures Step(st, Retune(limit)) == st.(window := st.window.(limit := if limit >= 1 then limit else 1))
  {
    hide Inv, Window.Inv, Window.CountIn, Window.Stamps, Window.After;
    PositiveLimit(st);
    InvParts(st);
    Window.AdmitsExactlyWhenRoom(st.window, st.clock, st.clock);
  }
}
