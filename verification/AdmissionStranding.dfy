/** Which runs leave an episode led by a session that is gone, and what becomes of the model then. */
module AdmissionStranding {
  import opened Common
  import opened AdmissionMachine
  import opened AdmissionInvariant
  import opened AdmissionTheorems
  import Window = SlidingWindow

  ghost predicate Stranded(st: State, m: Model, s: SessionId) {
    Leads(st, m, s) && s in st.sessions && st.sessions[s].pc.Ended?
  }

  /** A driver gives up between two attempts although its session leads an episode. */
  ghost predicate LeaderLeaves(st: State, a: Action) {
    a.Do? && a.op.Leave? && a.s in st.sessions && Leads(st, st.sessions[a.s].model, a.s)
  }

  ghost predicate NoLeaderLeaves(st: State, run: seq<Action>)
    requires LegalRun(st, run)
    decreases |run|
  {
    run == [] || (!LeaderLeaves(st, run[0]) && NoLeaderLeaves(Step(st, run[0]), run[1..]))
  }

  // ----- as long as no leader leaves -----

  predicate HasLeft(x: Session) {
    x.pc.Ended? && x.pc.outcome.Left?
  }

  ghost predicate LeadersStay(st: State) {
    forall m, s | Leads(st, m, s) && s in st.sessions :: !HasLeft(st.sessions[s])
  }

  lemma {:induction false} LeavingLocal(op: Op, s: SessionId, x: Session, ep: Option<Episode>, clock: real, next: nat,
                                        budget: nat, rate: Window.PassResult)
    requires OpEnabled(op, x)
    ensures var c := SessionStep(op, s, x, ep, clock, next, budget, rate);
            HasLeft(c.x) ==> op == Leave && c.ep == ep
  {
  }

  /** A leader led before, or is the session that stepped. */
  lemma {:induction false} LeadersAcrossAStep(st: State, a: Action, m: Model, s: SessionId)
    requires Inv(st) && Enabled(st, a) && Leads(Step(st, a), m, s)
    ensures Leads(st, m, s) || (a.Do? && a.s == s && st.sessions[s].model == m)
  {
    hide Window.Inv, LocalResult, Pair, SessionStep, Shape, Members;
    if a.Do? {
      var m' := st.sessions[a.s].model;
      var ep, c := EpisodeOf(st, m'), ChangeOf(st, a.s, a.op);
      OneStepLocal(st, a.s, a.op);
      LocalKeepsModel(a.s, st.sessions[a.s], ep, c, st.clock, st.nextGeneration, st.budget);
      assert EpisodeOf(Step(st, a), m') == c.ep;
    }
  }

  /** Others never make a session leave. */
  lemma {:induction false} LeavingIsOnesOwn(st: State, a: Action, s: SessionId)
    requires Inv(st) && Enabled(st, a) && s in Step(st, a).sessions && HasLeft(Step(st, a).sessions[s])
    ensures s in st.sessions && (HasLeft(st.sessions[s]) || a == Do(s, Leave))
    ensures a == Do(s, Leave) ==> Step(st, a).episodes == st.episodes
  {
    hide Inv, SessionStep, OpEnabled;
    if a.Do? {
      var x := st.sessions[a.s];
      LeavingLocal(a.op, a.s, x, EpisodeOf(st, x.model), st.clock, st.nextGeneration, st.budget, RateResult(st, a.s, a.op).1);
      SamePut(st.episodes, x.model);
    }
  }

  lemma {:induction false} StepKeepsLeadersStay(st: State, a: Action)
    requires Inv(st) && LeadersStay(st) && Enabled(st, a) && !LeaderLeaves(st, a)
    ensures LeadersStay(Step(st, a))
  {
    hide Inv, Step, HasLeft;
    var st' := Step(st, a);
    forall m, s | Leads(st', m, s) && s in st'.sessions ensures !HasLeft(st'.sessions[s]) {
      if HasLeft(st'.sessions[s]) {
        LeavingIsOnesOwn(st, a, s);
        LeadersAcrossAStep(st, a, m, s);
        LeaderKnown(st, m, s);
        if a != Do(s, Leave) {
          LeftHasEnded(st.sessions[s]);
          EndedTakesNoStep(st, a, s);
        }
      }
    }
  }

  lemma {:induction false} LeftHasEnded(x: Session)
    ensures HasLeft(x) ==> x.pc.Ended?
  {
  }

  lemma {:induction false} LeaderKnown(st: State, m: Model, s: SessionId)
    requires Inv(st)
    ensures Leads(st, m, s) ==> s in st.sessions && st.sessions[s].model == m
  {
    hide Window.Inv, Pair;
    if m in st.episodes {
      assert Members(st, m, st.episodes[m]);
    }
  }

  lemma {:induction false} RunKeepsLeadersStay(st: State, run: seq<Action>)
    requires Inv(st) && LeadersStay(st) && LegalRun(st, run) && NoLeaderLeaves(st, run)
    ensures LeadersStay(After(st, run))
    decreases |run|
  {
    hide Inv, Step, LeadersStay, LeaderLeaves;
    if run != [] {
      StepKeepsInv(st, run[0]);
      StepKeepsLeadersStay(st, run[0]);
      RunKeepsLeadersStay(Step(st, run[0]), run[1..]);
    }
  }

  // ----- once a leader has left -----

  /** Giving up between two attempts strands the episode exactly when the session leads it. */
  lemma {:induction false} LeavingStrandsExactly(st: State, s: SessionId)
    requires Inv(st) && Enabled(st, Do(s, Leave))
    ensures var m := st.sessions[s].model; Stranded(Step(st, Do(s, Leave)), m, s) <==> Leads(st, m, s)
  {
    hide Inv;
    SamePut(st.episodes, st.sessions[s].model);
  }

  /** Nobody but its leader claims an attempt for a model with a led episode. */
  lemma {:induction false} LedLocal(op: Op, s: SessionId, x: Session, ep: Option<Episode>, clock: real, next: nat,
                                    budget: nat, rate: Window.PassResult)
    requires Pair(s, x, ep, clock, budget) && OpEnabled(op, x)
    requires ep.Some? && ep.value.leader.Some? && ep.value.leader.value != s
    ensures SessionStep(op, s, x, ep, clock, next, budget, rate).x.started == x.started
  {
  }

  /** An ended session takes no step, and others leave its leadership alone. */
  lemma {:induction false} StrandedStep(st: State, a: Action, m: Model, s: SessionId)
    requires Inv(st) && Enabled(st, a) && Stranded(st, m, s)
    ensures Stranded(Step(st, a), m, s)
  {
    hide Window.Inv, LocalResult, Pair, SessionStep, Shape, SessionsOk, EpisodesOk, GenerationsDistinct, SlotsOk, OpEnabled;
    if a.Do? {
      var x := st.sessions[a.s];
      var ep, c := EpisodeOf(st, x.model), ChangeOf(st, a.s, a.op);
      EndedTakesNoStep(st, a, s);
      OneStepLocal(st, a.s, a.op);
      LocalKeepsModel(a.s, x, ep, c, st.clock, st.nextGeneration, st.budget);
      assert EpisodeOf(Step(st, a), x.model) == c.ep;
    }
  }

  lemma {:induction false} EndedTakesNoStep(st: State, a: Action, s: SessionId)
    requires Enabled(st, a) && s in st.sessions && st.sessions[s].pc.Ended?
    ensures !(a.Do? && a.s == s)
  {
  }

  /** No session of the model, already there or started by the step, starts an attempt. */
  lemma {:induction false} StrandedClaimsNothing(st: State, a: Action, m: Model, s: SessionId)
    requires Inv(st) && Enabled(st, a) && Stranded(st, m, s)
    ensures forall t | t in Step(st, a).sessions && Step(st, a).sessions[t].model == m ::
              Step(st, a).sessions[t].started == StartedIn(st, t)
  {
    hide Window.Inv, Pair, SessionStep, OpEnabled;
    SessionsAcrossAStep(st, a);
    if a.Do? {
      var x := st.sessions[a.s];
      EndedTakesNoStep(st, a, s);
      assert Pair(a.s, x, EpisodeOf(st, x.model), st.clock, st.budget);
      if x.model == m {
        LedLocal(a.op, a.s, x, EpisodeOf(st, m), st.clock, st.nextGeneration, st.budget, RateResult(st, a.s, a.op).1);
      }
    }
  }

  /** Over any run whatever, a stranded episode stays stranded: nobody takes over, and no session of its model, already
      there or started meanwhile, claims another attempt. */
  lemma {:induction false} StrandedForever(st: State, run: seq<Action>, m: Model, s: SessionId)
    requires Inv(st) && LegalRun(st, run) && Stranded(st, m, s)
    ensures Stranded(After(st, run), m, s)
    ensures st.sessions.Keys <= After(st, run).sessions.Keys
    ensures forall t | t in st.sessions :: After(st, run).sessions[t].model == st.sessions[t].model
    ensures forall t | t in After(st, run).sessions && After(st, run).sessions[t].model == m ::
              After(st, run).sessions[t].started == StartedIn(st, t)
    decreases |run|
  {
    hide Inv, Step, Stranded;
    if run != [] {
      StepKeepsInv(st, run[0]);
      StrandedStep(st, run[0], m, s);
      StrandedClaimsNothing(st, run[0], m, s);
      SessionsAcrossAStep(st, run[0]);
      StrandedForever(Step(st, run[0]), run[1..], m, s);
    }
  }

  lemma {:induction false} LeaverIsStranded(st: State, run: seq<Action>) returns (m: Model, s: SessionId)
    requires Inv(st) && LegalRun(st, run) && !NoLeaderLeaves(st, run)
    ensures Stranded(After(st, run), m, s)
    decreases |run|
  {
    hide Inv, Step, Stranded;
    StepKeepsInv(st, run[0]);
    if LeaderLeaves(st, run[0]) {
      m, s := st.sessions[run[0].s].model, run[0].s;
      LeavingStrandsExactly(st, s);
      StrandedForever(Step(st, run[0]), run[1..], m, s);
    } else {
      m, s := LeaverIsStranded(Step(st, run[0]), run[1..]);
    }
  }

  // ----- the main result -----

  /** No stranded leadership, over every prudent run from the start, with drivers that may work, fail or be cancelled
      between two attempts: every episode is led by a session still in the protocol if and only if no driver gave up
      between attempts while its session led.  Then an unnotified follower waits for such a leader. */
  lemma {:induction false} NoStrandedLeadership(clock: real, budget: nat, capacity: nat, limit: int, width: real, run: seq<Action>)
    requires budget > 0 && limit > 0 && width > 0.0
    requires var st := InitialState(clock, budget, capacity, limit, width); LegalRun(st, run) && PrudentRun(st, run)
    ensures var st := InitialState(clock, budget, capacity, limit, width);
            var e := After(st, run);
            && (forall m, s | Leads(e, m, s) :: s in e.sessions && e.sessions[s].model == m)
            && (NoLeaderLeaves(st, run) <==> forall m, s | Leads(e, m, s) :: !Stranded(e, m, s))
            && (NoLeaderLeaves(st, run) ==> forall s | s in e.sessions && Unnotified(e.sessions[s].pc) ::
                  exists t :: t != s && Leads(e, e.sessions[s].model, t) && !Stranded(e, e.sessions[s].model, t))
  {
    hide Inv, AllClean, Clean;
    var st := InitialState(clock, budget, capacity, limit, width);
    InitialInv(clock, budget, capacity, limit, width);
    NobodyAtFirst(clock, budget, capacity, limit, width);
    RunKeepsInv(st, run);
    PrudentRunStaysClean(st, run);
    EndedLeadersAreDoomedOrSpent(st, run);
    var e := After(st, run);
    if NoLeaderLeaves(st, run) {
      RunKeepsLeadersStay(st, run);
      forall m, s | Leads(e, m, s) ensures !Stranded(e, m, s) {
        CleanLeader(e, s);
      }
    } else {
      var m, s := LeaverIsStranded(st, run);
      assert Leads(e, m, s);
    }
  }

  lemma {:induction false} NobodyAtFirst(clock: real, budget: nat, capacity: nat, limit: int, width: real)
    ensures var st := InitialState(clock, budget, capacity, limit, width); AllClean(st) && LeadersStay(st)
  {
  }

  /** In a prudent run a leader has no terminal error, and if it ended it left. */
  lemma {:induction false} CleanLeader(st: State, s: SessionId)
    requires AllClean(st) && s in st.sessions && Leads(st, st.sessions[s].model, s)
    ensures st.sessions[s].terminal.None? && (st.sessions[s].pc.Ended? ==> HasLeft(st.sessions[s]))
  {
    assert Clean(s, st.sessions[s], EpisodeOf(st, st.sessions[s].model), st.budget);
  }
}
