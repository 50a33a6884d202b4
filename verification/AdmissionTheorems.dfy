/** What provider admission promises, over every run. */
module AdmissionTheorems {
  import opened Common
  import opened AdmissionMachine
  import opened AdmissionInvariant
  import Window = SlidingWindow

  // ----- runs -----

  ghost predicate LegalRun(st: State, run: seq<Action>)
    decreases |run|
  {
    run == [] || (Enabled(st, run[0]) && LegalRun(Step(st, run[0]), run[1..]))
  }

  ghost function After(st: State, run: seq<Action>): State
    requires LegalRun(st, run)
    decreases |run|
  {
    if run == [] then st else After(Step(st, run[0]), run[1..])
  }

  lemma {:induction false} RunKeepsInv(st: State, run: seq<Action>)
    requires Inv(st) && LegalRun(st, run)
    ensures Inv(After(st, run))
    decreases |run|
  {
    hide Inv, Step;
    if run != [] {
      StepKeepsInv(st, run[0]);
      RunKeepsInv(Step(st, run[0]), run[1..]);
    }
  }

  // ----- leadership -----

  ghost predicate Leads(st: State, m: Model, s: SessionId) {
    m in st.episodes && st.episodes[m].leader == Some(s)
  }

  /** Over every interleaving, with cancellation at any await: a session that has ended
      leads an episode only if a terminal error was recorded against it, its budget is spent,
      or it left between two attempts, and whoever waits unnotified waits for a leader. */
  lemma {:induction false} EndedLeadersAreDoomedOrSpent(st: State, run: seq<Action>)
    requires Inv(st) && LegalRun(st, run)
    ensures var e := After(st, run);
            && (forall m, s | Leads(e, m, s) ::
                  && s in e.sessions && e.sessions[s].model == m
                  && (e.sessions[s].pc.Ended? ==>
                        e.sessions[s].terminal.Some? || e.sessions[s].started == e.budget || e.sessions[s].pc.outcome.Left?))
            && (forall s | s in e.sessions && Unnotified(e.sessions[s].pc) ::
                  exists t :: t != s && Leads(e, e.sessions[s].model, t))
  {
    RunKeepsInv(st, run);
    var e := After(st, run);
    forall m, s | Leads(e, m, s)
      ensures s in e.sessions && e.sessions[s].model == m
      ensures e.sessions[s].pc.Ended? ==>
                e.sessions[s].terminal.Some? || e.sessions[s].started == e.budget || e.sessions[s].pc.outcome.Left?
    {
      assert Members(e, m, e.episodes[m]);
      assert Pair(s, e.sessions[s], EpisodeOf(e, e.sessions[s].model), e.clock, e.budget);
    }
    forall s | s in e.sessions && Unnotified(e.sessions[s].pc)
      ensures exists t :: t != s && Leads(e, e.sessions[s].model, t)
    {
      assert Pair(s, e.sessions[s], EpisodeOf(e, e.sessions[s].model), e.clock, e.budget);
      assert Leads(e, e.sessions[s].model, e.episodes[e.sessions[s].model].leader.value);
    }
  }

  /** A prudent step: acquiring the condition's lock never suspends (nothing in the
      program holds it across an await), so whoever is at the lock moves next; and a
      request correction is only recorded while the budget allows another attempt. */
  ghost predicate Prudent(st: State, a: Action) {
    && (forall t | t in st.sessions && st.sessions[t].pc.AtLock? :: a == Do(t, EnterGate))
    && (a.Do? && a.op.Correct? ==> a.s in st.sessions && st.sessions[a.s].started < st.budget)
  }

  ghost predicate PrudentRun(st: State, run: seq<Action>)
    requires LegalRun(st, run)
    decreases |run|
  {
    run == [] || (Prudent(st, run[0]) && PrudentRun(Step(st, run[0]), run[1..]))
  }

  /** Where a session with a terminal error recorded may be: nowhere that leads to a claim. */
  predicate Sealable(pc: Pc) {
    pc.Parked? || (pc.Holding? && pc.attempt.resolved) || pc.Orphaning? || pc.Ended? || pc.BackingOff?
    || pc.Pausing?
  }

  predicate Clean(s: SessionId, x: Session, ep: Option<Episode>, budget: nat) {
    && (x.terminal.Some? ==> Sealable(x.pc))
    && (ep.Some? && ep.value.leader == Some(s) ==>
          x.terminal.None? && (x.pc.Ended? ==> x.pc.outcome.Left?) && (Retrying(x.pc) ==> x.started < budget))
  }

  ghost predicate AllClean(st: State) {
    forall s | s in st.sessions :: Clean(s, st.sessions[s], EpisodeOf(st, st.sessions[s].model), st.budget)
  }

  lemma {:induction false} CleanGate(op: Op, s: SessionId, x: Session, ep: Option<Episode>, clock: real, next: nat,
                                     budget: nat, rate: Window.PassResult)
    requires Pair(s, x, ep, clock, budget) && ShapeOf(ep, next) && OpEnabled(op, x)
    requires Clean(s, x, ep, budget) && (op.Correct? ==> x.started < budget)
    requires op.EnterGate? || op.Recheck?
    ensures Clean(s, SessionStep(op, s, x, ep, clock, next, budget, rate).x,
                  SessionStep(op, s, x, ep, clock, next, budget, rate).ep, budget)
  {
  }

  lemma {:induction false} CleanFail(op: Op, s: SessionId, x: Session, ep: Option<Episode>, clock: real, next: nat,
                                     budget: nat, rate: Window.PassResult)
    requires Pair(s, x, ep, clock, budget) && ShapeOf(ep, next) && OpEnabled(op, x)
    requires Clean(s, x, ep, budget) && (op.Correct? ==> x.started < budget)
    requires op.Fail?
    ensures Clean(s, SessionStep(op, s, x, ep, clock, next, budget, rate).x,
                  SessionStep(op, s, x, ep, clock, next, budget, rate).ep, budget)
  {
  }

  lemma {:induction false} CleanResolve(op: Op, s: SessionId, x: Session, ep: Option<Episode>, clock: real, next: nat,
                                     budget: nat, rate: Window.PassResult)
    requires Pair(s, x, ep, clock, budget) && ShapeOf(ep, next) && OpEnabled(op, x)
    requires Clean(s, x, ep, budget) && (op.Correct? ==> x.started < budget)
    requires op.Succeed? || op.Correct? || op.Reject? || op.AcceptedFail?
    ensures Clean(s, SessionStep(op, s, x, ep, clock, next, budget, rate).x,
                  SessionStep(op, s, x, ep, clock, next, budget, rate).ep, budget)
  {
  }

  lemma {:induction false} CleanClose(op: Op, s: SessionId, x: Session, ep: Option<Episode>, clock: real, next: nat,
                                     budget: nat, rate: Window.PassResult)
    requires Pair(s, x, ep, clock, budget) && ShapeOf(ep, next) && OpEnabled(op, x)
    requires Clean(s, x, ep, budget) && (op.Correct? ==> x.started < budget)
    requires op.Close? || op.Release? || op.Pause? || op.Reopen? || op.Leave?
    ensures Clean(s, SessionStep(op, s, x, ep, clock, next, budget, rate).x,
                  SessionStep(op, s, x, ep, clock, next, budget, rate).ep, budget)
  {
  }

  lemma {:induction false} CleanWait(op: Op, s: SessionId, x: Session, ep: Option<Episode>, clock: real, next: nat,
                                     budget: nat, rate: Window.PassResult)
    requires Pair(s, x, ep, clock, budget) && ShapeOf(ep, next) && OpEnabled(op, x)
    requires Clean(s, x, ep, budget) && (op.Correct? ==> x.started < budget)
    requires !op.EnterGate? && !op.Recheck? && !op.Fail? && !op.Succeed? && !op.Correct? && !op.Reject? && !op.AcceptedFail?
    requires !op.Close? && !op.Release? && !op.Pause? && !op.Reopen? && !op.Leave?
    ensures Clean(s, SessionStep(op, s, x, ep, clock, next, budget, rate).x,
                  SessionStep(op, s, x, ep, clock, next, budget, rate).ep, budget)
  {
  }

  lemma {:induction false} CleanStep(op: Op, s: SessionId, x: Session, ep: Option<Episode>, clock: real, next: nat,
                                     budget: nat, rate: Window.PassResult)
    requires Pair(s, x, ep, clock, budget) && ShapeOf(ep, next) && OpEnabled(op, x)
    requires Clean(s, x, ep, budget) && (op.Correct? ==> x.started < budget)
    ensures Clean(s, SessionStep(op, s, x, ep, clock, next, budget, rate).x,
                  SessionStep(op, s, x, ep, clock, next, budget, rate).ep, budget)
  {
    hide Pair, ShapeOf, SessionStep, Clean, OpEnabled;
    match op
    case EnterGate | Recheck => CleanGate(op, s, x, ep, clock, next, budget, rate);
    case Fail(_, _, _) => CleanFail(op, s, x, ep, clock, next, budget, rate);
    case Succeed | Correct | Reject | AcceptedFail(_) => CleanResolve(op, s, x, ep, clock, next, budget, rate);
    case Close(_) | Release | Pause | Reopen | Leave => CleanClose(op, s, x, ep, clock, next, budget, rate);
    case _ => CleanWait(op, s, x, ep, clock, next, budget, rate);
  }

  lemma {:induction false} CleanOther(s: SessionId, t: SessionId, y: Session, ep: Option<Episode>, c: Change,
                                      clock: real, budget: nat)
    requires s != t && Pair(t, y, ep, clock, budget) && Frame(s, ep, c) && Clean(t, y, ep, budget) && !y.pc.AtLock?
    ensures Clean(t, Affected(t, y, Waits(ep, t), c), c.ep, budget)
  {
  }

  lemma {:induction false} CleanStranger(t: SessionId, y: Session, ep: Option<Episode>, c: Change, budget: nat)
    requires Clean(t, y, ep, budget)
    ensures Clean(t, Affected(t, y, false, c), ep, budget)
  {
  }

  lemma {:induction false} OneStepLocal(st: State, s: SessionId, op: Op)
    requires Inv(st) && Enabled(st, Do(s, op))
    ensures Local(st, s, ChangeOf(st, s, op))
  {
    var x := st.sessions[s];
    assert Pair(s, x, EpisodeOf(st, x.model), st.clock, st.budget);
    LocalStep(op, s, x, EpisodeOf(st, x.model), st.clock, st.nextGeneration, st.budget, RateResult(st, s, op).1);
  }

  /** Only the waiters of the stepping session's own model have an error recorded. */
  lemma {:induction false} WaitersShareTheModel(st: State, s: SessionId, t: SessionId)
    requires Inv(st) && s in st.sessions && t in st.sessions && st.sessions[t].model != st.sessions[s].model
    ensures !Waits(EpisodeOf(st, st.sessions[s].model), t)
  {
    var m := st.sessions[s].model;
    if m in st.episodes {
      assert Members(st, m, st.episodes[m]);
    }
  }

  lemma {:induction false} PrudentStepStaysClean(st: State, a: Action)
    requires Inv(st) && AllClean(st) && Enabled(st, a) && Prudent(st, a)
    ensures AllClean(Step(st, a))
  {
    hide Window.Inv, LocalResult, Pair, Clean, SessionStep;
    var st' := Step(st, a);
    if a.Do? {
      var s, op := a.s, a.op;
      var m := st.sessions[s].model;
      var ep, c := EpisodeOf(st, m), ChangeOf(st, s, op);
      OneStepLocal(st, s, op);
      assert EpisodeOf(st', m) == c.ep;
      forall t | t in st'.sessions ensures Clean(t, st'.sessions[t], EpisodeOf(st', st'.sessions[t].model), st'.budget) {
        var y := st.sessions[t];
        assert Pair(t, y, EpisodeOf(st, y.model), st.clock, st.budget);
        assert Clean(t, y, EpisodeOf(st, y.model), st.budget);
        if t == s {
          CleanStep(op, s, y, ep, st.clock, st.nextGeneration, st.budget, RateResult(st, s, op).1);
          LocalKeepsModel(s, y, ep, c, st.clock, st.nextGeneration, st.budget);
        } else if y.model == m {
          LocalKeepsModel(s, st.sessions[s], ep, c, st.clock, st.nextGeneration, st.budget);
          CleanOther(s, t, y, ep, c, st.clock, st.budget);
        } else {
          WaitersShareTheModel(st, s, t);
          CleanStranger(t, y, EpisodeOf(st, y.model), c, st.budget);
        }
      }
    } else {
      CleanElsewhere(st, a);
    }
  }

  lemma {:induction false} LocalKeepsModel(s: SessionId, x: Session, ep: Option<Episode>, c: Change, clock: real, next: nat, budget: nat)
    requires LocalResult(s, x, ep, c, clock, next, budget)
    ensures c.x.model == x.model && Frame(s, ep, c)
  {
  }

  lemma {:induction false} CleanElsewhere(st: State, a: Action)
    requires Inv(st) && AllClean(st) && Enabled(st, a) && !a.Do?
    ensures AllClean(Step(st, a))
  {
    hide Window.Inv;
    var st' := Step(st, a);
    forall t | t in st'.sessions ensures Clean(t, st'.sessions[t], EpisodeOf(st', st'.sessions[t].model), st'.budget) {
      if t in st.sessions {
        assert Clean(t, st.sessions[t], EpisodeOf(st, st.sessions[t].model), st.budget);
      } else {
        var m := st'.sessions[t].model;
        if m in st.episodes { assert Members(st, m, st.episodes[m]); }
      }
    }
  }

  lemma {:induction false} PrudentRunStaysClean(st: State, run: seq<Action>)
    requires Inv(st) && AllClean(st) && LegalRun(st, run) && PrudentRun(st, run)
    ensures AllClean(After(st, run))
    decreases |run|
  {
    hide Inv, Step, AllClean, Prudent;
    if run != [] {
      StepKeepsInv(st, run[0]);
      PrudentStepStaysClean(st, run[0]);
      PrudentRunStaysClean(Step(st, run[0]), run[1..]);
    }
  }

  // ----- probes and generations -----

  /** A live probe permit is always current: nobody but its holder can take it away.  So
      each model has at most one, and its holder leads the model's episode. */
  lemma {:induction false} LiveProbesAreCurrentAndUnique(st: State, s: SessionId, t: SessionId)
    requires Inv(st) && s in st.sessions && t in st.sessions
    requires LivePermit(st.sessions[s].pc).Some? && LivePermit(st.sessions[s].pc).value.Probe?
    requires LivePermit(st.sessions[t].pc).Some? && LivePermit(st.sessions[t].pc).value.Probe?
    requires st.sessions[s].model == st.sessions[t].model
    ensures s == t
    ensures PermitIsCurrent(s, LivePermit(st.sessions[s].pc).value, EpisodeOf(st, st.sessions[s].model))
  {
    assert Pair(s, st.sessions[s], EpisodeOf(st, st.sessions[s].model), st.clock, st.budget);
    assert Pair(t, st.sessions[t], EpisodeOf(st, st.sessions[t].model), st.clock, st.budget);
  }

  /** An episode's probe flag is up exactly while its leader holds the live probe permit. */
  lemma {:induction false} ProbeFlagMeansLivePermit(st: State, m: Model)
    requires Inv(st) && m in st.episodes
    ensures st.episodes[m].probeActive <==>
            exists s :: s in st.sessions && st.sessions[s].model == m
                        && LivePermit(st.sessions[s].pc).Some? && LivePermit(st.sessions[s].pc).value.Probe?
  {
    var e := st.episodes[m];
    assert Members(st, m, e) && Shape(e, st.nextGeneration);
    if e.probeActive {
      var l := e.leader.value;
      assert Pair(l, st.sessions[l], EpisodeOf(st, m), st.clock, st.budget);
      assert LivePermit(st.sessions[l].pc).Some?;
    }
    forall s | s in st.sessions && st.sessions[s].model == m
               && LivePermit(st.sessions[s].pc).Some? && LivePermit(st.sessions[s].pc).value.Probe?
      ensures e.probeActive
    {
      assert Pair(s, st.sessions[s], EpisodeOf(st, m), st.clock, st.budget);
    }
  }

  ghost predicate Claims(st: State, a: Action, s: SessionId)
    requires Enabled(st, a)
  {
    s in st.sessions && Step(st, a).sessions[s].started > st.sessions[s].started
  }

  predicate GatedClaim(s: SessionId, x: Session, ep: Option<Episode>, clock: real) {
    && x.pc.Granted?
    && if ep.None? then x.pc.permit == Normal
       else
         && ep.value.terminalUntil.None? && ep.value.leader == Some(s) && ep.value.probeActive
         && x.pc.permit.Probe? && x.pc.permit.generation == ep.value.generation
         && ep.value.readyAt <= x.pc.permit.grantedAt <= clock
  }

  lemma {:induction false} ClaimLocal(op: Op, s: SessionId, x: Session, ep: Option<Episode>, clock: real, next: nat,
                                      budget: nat, rate: Window.PassResult)
    requires Pair(s, x, ep, clock, budget) && OpEnabled(op, x)
    ensures var c := SessionStep(op, s, x, ep, clock, next, budget, rate);
            c.x.started != x.started ==>
              op == Claim && GatedClaim(s, x, ep, clock) && x.started < budget && c.x.started == x.started + 1
  {
    if op != Claim {
      OthersClaimNothing(op, s, x, ep, clock, next, budget, rate);
    }
  }

  lemma {:induction false} OthersClaimNothing(op: Op, s: SessionId, x: Session, ep: Option<Episode>, clock: real, next: nat,
                                              budget: nat, rate: Window.PassResult)
    requires OpEnabled(op, x) && op != Claim
    ensures SessionStep(op, s, x, ep, clock, next, budget, rate).x.started == x.started
  {
  }

  /** The only attempts claimed: with no episode for the model, or by the leader of a live
      episode as its one probe, granted no earlier than the episode was ready. */
  lemma {:induction false} ClaimsAreGated(st: State, a: Action, s: SessionId)
    requires Inv(st) && Enabled(st, a) && Claims(st, a, s)
    ensures a == Do(s, Claim) && GatedClaim(s, st.sessions[s], EpisodeOf(st, st.sessions[s].model), st.clock)
    ensures st.sessions[s].started < st.budget && Step(st, a).sessions[s].started == st.sessions[s].started + 1
  {
    hide Window.Inv, SessionStep, Pair, GatedClaim;
    var x := st.sessions[s];
    assert Pair(s, x, EpisodeOf(st, x.model), st.clock, st.budget);
    if a.Do? && a.s == s {
      ClaimLocal(a.op, s, x, EpisodeOf(st, x.model), st.clock, st.nextGeneration, st.budget, RateResult(st, s, a.op).1);
    }
  }

  lemma {:induction false} GrantLocal(op: Op, s: SessionId, x: Session, ep: Option<Episode>, clock: real, next: nat,
                                      budget: nat, rate: Window.PassResult)
    requires Pair(s, x, ep, clock, budget) && OpEnabled(op, x) && !x.pc.AtRate?
    ensures var c := SessionStep(op, s, x, ep, clock, next, budget, rate);
            c.x.pc.AtRate? ==>
              if c.x.pc.permit.Probe?
              then c.x.pc.permit.grantedAt == clock && c.ep.Some? && c.ep.value.readyAt <= clock && PermitIsCurrent(s, c.x.pc.permit, c.ep)
              else c.ep.None?
  {
    if op != EnterGate && op != Recheck {
      OthersGrantNothing(op, s, x, ep, clock, next, budget, rate);
    }
  }

  lemma {:induction false} OthersGrantNothing(op: Op, s: SessionId, x: Session, ep: Option<Episode>, clock: real, next: nat,
                                              budget: nat, rate: Window.PassResult)
    requires OpEnabled(op, x) && !x.pc.AtRate? && op != EnterGate && op != Recheck
    ensures !SessionStep(op, s, x, ep, clock, next, budget, rate).x.pc.AtRate?
  {
  }

  /** A permit leaves the gate current, and a probe permit only once its episode is ready. */
  lemma {:induction false} PermitsAreGrantedCurrent(st: State, s: SessionId, op: Op)
    requires Inv(st) && Enabled(st, Do(s, op)) && !st.sessions[s].pc.AtRate?
    requires Step(st, Do(s, op)).sessions[s].pc.AtRate?
    ensures var st' := Step(st, Do(s, op));
            var permit, ep := st'.sessions[s].pc.permit, EpisodeOf(st', st.sessions[s].model);
            && PermitIsCurrent(s, permit, ep)
            && (permit.Probe? ==> permit.grantedAt == st.clock && ep.Some? && ep.value.readyAt <= st.clock)
  {
    hide Window.Inv, SessionStep, Pair;
    var x := st.sessions[s];
    assert Pair(s, x, EpisodeOf(st, x.model), st.clock, st.budget);
    GrantLocal(op, s, x, EpisodeOf(st, x.model), st.clock, st.nextGeneration, st.budget, RateResult(st, s, op).1);
    assert EpisodeOf(Step(st, Do(s, op)), x.model) == ChangeOf(st, s, op).ep;
  }

  lemma {:induction false} LocalStale(op: Op, s: SessionId, x: Session, ep: Option<Episode>, clock: real, next: nat, budget: nat,
                                      rate: Window.PassResult)
    requires OpEnabled(op, x)
    requires op.Succeed? || op.Correct? || op.Reject? || op.Drop? || op.Release?
    requires LivePermit(x.pc).Some? && !MatchesProbe(s, LivePermit(x.pc).value, ep)
    ensures SessionStep(op, s, x, ep, clock, next, budget, rate).ep == ep
  {
  }

  lemma {:induction false} SamePut(episodes: map<Model, Episode>, m: Model)
    ensures PutEpisode(episodes, m, if m in episodes then Some(episodes[m]) else None) == episodes
  {
  }

  /** Resolving, dropping or closing with a permit that no longer matches changes no episode. */
  lemma {:induction false} StalePermitsChangeNothing(st: State, s: SessionId, op: Op)
    requires Inv(st) && Enabled(st, Do(s, op))
    requires op.Succeed? || op.Correct? || op.Reject? || op.Drop? || op.Release?
    requires LivePermit(st.sessions[s].pc).Some?
             && !MatchesProbe(s, LivePermit(st.sessions[s].pc).value, EpisodeOf(st, st.sessions[s].model))
    ensures Step(st, Do(s, op)).episodes == st.episodes
  {
    hide Inv, SessionStep, Window.Inv, MatchesProbe;
    var x := st.sessions[s];
    LocalStale(op, s, x, EpisodeOf(st, x.model), st.clock, st.nextGeneration, st.budget, RateResult(st, s, op).1);
    SamePut(st.episodes, x.model);
  }

  lemma {:induction false} GenerationStep(st: State, a: Action, m: Model)
    requires Inv(st) && Enabled(st, a) && m in Step(st, a).episodes
    ensures st.nextGeneration <= Step(st, a).nextGeneration
    ensures Step(st, a).episodes[m].generation == st.nextGeneration
            || (m in st.episodes && st.episodes[m].generation == Step(st, a).episodes[m].generation)
  {
    hide Window.Inv, Pair, SessionStep;
    if a.Do? {
      OneStepLocal(st, a.s, a.op);
      LocalGeneration(a.s, st.sessions[a.s], EpisodeOf(st, st.sessions[a.s].model), ChangeOf(st, a.s, a.op),
                      st.clock, st.nextGeneration, st.budget);
    }
  }

  lemma {:induction false} LocalGeneration(s: SessionId, x: Session, ep: Option<Episode>, c: Change, clock: real, next: nat, budget: nat)
    requires LocalResult(s, x, ep, c, clock, next, budget)
    ensures c.ep.Some? ==> c.ep.value.generation == next || (ep.Some? && c.ep.value.generation == ep.value.generation)
  {
  }

  /** Generations are never reused: an episode with an old generation is the old episode. */
  lemma {:induction false} OldGenerationsNeverReturn(st: State, run: seq<Action>, m: Model)
    requires Inv(st) && LegalRun(st, run)
    requires m in After(st, run).episodes && After(st, run).episodes[m].generation < st.nextGeneration
    ensures m in st.episodes && st.episodes[m].generation == After(st, run).episodes[m].generation
    decreases |run|
  {
    hide Inv, Step;
    if run != [] {
      var next := Step(st, run[0]);
      StepKeepsInv(st, run[0]);
      NextGenerationGrows(st, run[0]);
      OldGenerationsNeverReturn(next, run[1..], m);
      GenerationStep(st, run[0], m);
    }
  }

  lemma {:induction false} NextGenerationGrows(st: State, a: Action)
    requires Enabled(st, a)
    ensures st.nextGeneration <= Step(st, a).nextGeneration
  {
  }

  // ----- the terminal hold -----

  ghost predicate OnHold(st: State, m: Model, until: real) {
    m in st.episodes && st.episodes[m].terminalUntil == Some(until) && st.clock < until
  }

  lemma {:induction false} HoldIsStable(st: State, a: Action, m: Model, until: real)
    requires Inv(st) && Enabled(st, a) && OnHold(st, m, until)
    ensures m in Step(st, a).episodes && Step(st, a).episodes[m] == st.episodes[m]
    ensures forall s | s in st.sessions && st.sessions[s].model == m ::
              s in Step(st, a).sessions && Step(st, a).sessions[s].model == m
              && Step(st, a).sessions[s].started == st.sessions[s].started
  {
    hide Window.Inv;
    var e := st.episodes[m];
    assert Shape(e, st.nextGeneration);
    if a.Do? {
      var s := a.s;
      assert Pair(s, st.sessions[s], EpisodeOf(st, st.sessions[s].model), st.clock, st.budget);
      if st.sessions[s].model == m {
        HeldEpisodeStep(a.op, s, st.sessions[s], EpisodeOf(st, m), st.clock, st.nextGeneration, st.budget,
                        RateResult(st, s, a.op).1, until);
      }
    }
  }

  lemma {:induction false} HeldEpisodeStep(op: Op, s: SessionId, x: Session, ep: Option<Episode>, clock: real, next: nat,
                                           budget: nat, rate: Window.PassResult, until: real)
    requires Pair(s, x, ep, clock, budget) && ShapeOf(ep, next) && OpEnabled(op, x)
    requires ep.Some? && ep.value.terminalUntil == Some(until) && clock < until
    ensures var c := SessionStep(op, s, x, ep, clock, next, budget, rate);
            c.ep == ep && c.x.started == x.started && c.x.model == x.model
  {
    assert ep.value.waiters - {s} == ep.value.waiters;
  }

  lemma {:induction false} ClockGrows(st: State, run: seq<Action>)
    requires LegalRun(st, run)
    ensures st.clock <= After(st, run).clock
    decreases |run|
  {
    if run != [] {
      StepClock(st, run[0]);
      ClockGrows(Step(st, run[0]), run[1..]);
    }
  }

  lemma {:induction false} StepClock(st: State, a: Action)
    requires Enabled(st, a)
    ensures st.clock <= Step(st, a).clock
  {
  }

  /** A session keeps its model, and a session not known before has started no attempt. */
  lemma {:induction false} SessionsAcrossAStep(st: State, a: Action)
    requires Inv(st) && Enabled(st, a)
    ensures st.sessions.Keys <= Step(st, a).sessions.Keys
    ensures forall s | s in st.sessions :: Step(st, a).sessions[s].model == st.sessions[s].model
    ensures forall s | s in Step(st, a).sessions && s !in st.sessions :: Step(st, a).sessions[s].started == 0
  {
    hide Inv, Pair, SessionStep;
    if a.Do? {
      OneStepLocal(st, a.s, a.op);
      LocalKeepsModel(a.s, st.sessions[a.s], EpisodeOf(st, st.sessions[a.s].model), ChangeOf(st, a.s, a.op),
                      st.clock, st.nextGeneration, st.budget);
    }
  }

  function StartedIn(st: State, s: SessionId): nat {
    if s in st.sessions then st.sessions[s].started else 0
  }

  /** While an exhausted episode's hold lasts, over any run: the episode stays as it is and no session of the
      model, already there or started meanwhile, claims an attempt. */
  lemma {:induction false} NoAttemptDuringHold(st: State, run: seq<Action>, m: Model, until: real)
    requires Inv(st) && LegalRun(st, run) && OnHold(st, m, until) && After(st, run).clock < until
    ensures OnHold(After(st, run), m, until) && After(st, run).episodes[m] == st.episodes[m]
    ensures st.sessions.Keys <= After(st, run).sessions.Keys
    ensures forall s | s in After(st, run).sessions && After(st, run).sessions[s].model == m ::
              After(st, run).sessions[s].started == StartedIn(st, s)
    ensures forall s | s in st.sessions :: After(st, run).sessions[s].model == st.sessions[s].model
    decreases |run|
  {
    hide Inv, Step;
    if run != [] {
      var next := Step(st, run[0]);
      StepKeepsInv(st, run[0]);
      HoldIsStable(st, run[0], m, until);
      SessionsAcrossAStep(st, run[0]);
      ClockGrows(next, run[1..]);
      NoAttemptDuringHold(next, run[1..], m, until);
    }
  }

  /** A session that can only end, with its terminal error, at the gate. */
  ghost predicate Sealed(st: State, s: SessionId, error: Error) {
    s in st.sessions && st.sessions[s].terminal == Some(error) && Sealable(st.sessions[s].pc)
  }

  /** Exhausting an episode: what becomes of it and of its waiters.  A waiter that is not
      at that moment already past the gate's terminal check is sealed. */
  lemma {:induction false} ExhaustionSealsWaiters(st: State, s: SessionId, error: Error, delay: real, hold: real)
    requires Inv(st) && Enabled(st, Do(s, Fail(error, delay, hold)))
    requires st.sessions[s].started == st.budget
    requires var ep := EpisodeOf(st, st.sessions[s].model);
             ep.None? || MatchesProbe(s, st.sessions[s].pc.attempt.permit, ep)
    ensures var st' := Step(st, Do(s, Fail(error, delay, hold)));
            var m := st.sessions[s].model;
            && m in st'.episodes && st'.episodes[m].terminalUntil == Some(st.clock + hold)
            && st'.episodes[m].lastError == error
            && st'.episodes[m].leader.None? && !st'.episodes[m].probeActive && st'.episodes[m].waiters == {}
            && (forall w | Waits(EpisodeOf(st, m), w) ::
                  && w in st'.sessions && st'.sessions[w].terminal == Some(error)
                  && (Sealed(st', w, error) || st'.sessions[w].pc.AtLock?)
                  && (st'.sessions[w].pc.Parked? ==>
                        && st'.sessions[w].pc.notified
                        && SessionStep(WakeParked, w, st'.sessions[w], EpisodeOf(st', m), st'.clock, st'.nextGeneration,
                                       st'.budget, Window.Refused).x.pc == Ended(RecoveryExhausted(error))))
  {
    hide Window.Inv;
    var m := st.sessions[s].model;
    var ep := EpisodeOf(st, m);
    if ep.Some? {
      assert Members(st, m, ep.value);
      assert Pair(s, st.sessions[s], ep, st.clock, st.budget);
      forall w | w in ep.value.waiters
        ensures Member(st, w, m) && w != s && WaiterPc(st.sessions[w].pc)
      {
        assert Pair(w, st.sessions[w], EpisodeOf(st, st.sessions[w].model), st.clock, st.budget);
      }
    }
  }

  lemma {:induction false} SealedStep(op: Op, s: SessionId, x: Session, ep: Option<Episode>, clock: real, next: nat,
                                      budget: nat, rate: Window.PassResult)
    requires OpEnabled(op, x) && x.terminal.Some? && Sealable(x.pc)
    ensures var x' := SessionStep(op, s, x, ep, clock, next, budget, rate).x;
            Sealable(x'.pc) && x'.terminal == x.terminal && x'.started == x.started
  {
  }

  lemma {:induction false} WaiterNotSealedAway(st: State, a: Action, w: SessionId, error: Error)
    requires Inv(st) && Enabled(st, a) && Sealed(st, w, error)
    ensures w in Step(st, a).sessions && Step(st, a).sessions[w].terminal.Some?
    ensures Sealed(Step(st, a), w, Step(st, a).sessions[w].terminal.value)
    ensures Step(st, a).sessions[w].started == st.sessions[w].started
  {
    hide Window.Inv, SessionStep;
    if a.Do? && a.s == w {
      var x := st.sessions[w];
      SealedStep(a.op, w, x, EpisodeOf(st, x.model), st.clock, st.nextGeneration, st.budget, RateResult(st, w, a.op).1);
    }
  }

  /** Over any run, contended lock or not, a sealed session never claims another attempt. */
  lemma {:induction false} SealedNeverClaims(st: State, run: seq<Action>, w: SessionId, error: Error)
    requires Inv(st) && LegalRun(st, run) && Sealed(st, w, error)
    ensures w in After(st, run).sessions && After(st, run).sessions[w].started == st.sessions[w].started
    ensures exists e :: Sealed(After(st, run), w, e)
    decreases |run|
  {
    hide Inv, Step;
    if run == [] {
      assert Sealed(After(st, run), w, error);
    } else {
      StepKeepsInv(st, run[0]);
      WaiterNotSealedAway(st, run[0], w, error);
      SealedNeverClaims(Step(st, run[0]), run[1..], w, Step(st, run[0]).sessions[w].terminal.value);
    }
  }

  // ----- conservation -----

  /** Over every run: free slots, slots of open or opening attempts and hedge slots add up
      to the capacity, and no session starts more attempts than its budget. */
  lemma {:induction false} SlotsAndBudgetsConserved(clock: real, budget: nat, capacity: nat, limit: int, width: real, run: seq<Action>)
    requires budget > 0 && limit > 0 && width > 0.0
    requires LegalRun(InitialState(clock, budget, capacity, limit, width), run)
    ensures var e := After(InitialState(clock, budget, capacity, limit, width), run);
            && e.free + |Holders(e.sessions)| + e.hedges == capacity
            && forall s | s in e.sessions :: e.sessions[s].started <= budget
  {
    var st := InitialState(clock, budget, capacity, limit, width);
    InitialInv(clock, budget, capacity, limit, width);
    RunKeepsInv(st, run);
    ConfigurationKept(st, run);
    var e := After(st, run);
    forall s | s in e.sessions ensures e.sessions[s].started <= budget {
      assert Pair(s, e.sessions[s], EpisodeOf(e, e.sessions[s].model), e.clock, e.budget);
    }
  }

  lemma {:induction false} StepConfiguration(st: State, a: Action)
    requires Enabled(st, a)
    ensures Step(st, a).capacity == st.capacity && Step(st, a).budget == st.budget
    ensures Step(st, a).window.width == st.window.width
  {
  }

  lemma {:induction false} ConfigurationKept(st: State, run: seq<Action>)
    requires LegalRun(st, run)
    ensures After(st, run).capacity == st.capacity && After(st, run).budget == st.budget
    ensures After(st, run).window.width == st.window.width
    decreases |run|
  {
    hide Step;
    if run != [] {
      StepConfiguration(st, run[0]);
      ConfigurationKept(Step(st, run[0]), run[1..]);
    }
  }

  // ----- the rate window -----

  ghost predicate LogWithin(w: Window.Window, most: int) {
    w.limit <= most && forall j | 0 <= j < |w.log| :: w.log[j].Admission? && w.log[j].limit <= most
  }

  lemma {:induction false} LogWithinStep(st: State, a: Action, most: int)
    requires Enabled(st, a) && LogWithin(st.window, most) && most >= 1 && (a.Retune? ==> a.limit <= most)
    ensures LogWithin(Step(st, a).window, most)
  {
  }

  lemma {:induction false} LogWithinRun(st: State, run: seq<Action>, most: int)
    requires LegalRun(st, run) && LogWithin(st.window, most) && most >= 1
    requires forall k | 0 <= k < |run| :: run[k].Retune? ==> run[k].limit <= most
    ensures LogWithin(After(st, run).window, most)
    decreases |run|
  {
    hide Step;
    if run != [] {
      LogWithinStep(st, run[0], most);
      LogWithinRun(Step(st, run[0]), run[1..], most);
    }
  }

  /** Over every run of the whole controller, sessions, probes and hedges together never
      record more admissions in a half-open window than the largest limit in force. */
  lemma {:induction false} AdmissionsRespectTheWindow(clock: real, budget: nat, capacity: nat, limit: int, width: real,
                                                      run: seq<Action>, most: nat, t: real)
    requires budget > 0 && 0 < limit <= most && width > 0.0
    requires LegalRun(InitialState(clock, budget, capacity, limit, width), run)
    requires forall k | 0 <= k < |run| :: run[k].Retune? ==> run[k].limit <= most
    ensures var e := After(InitialState(clock, budget, capacity, limit, width), run);
            Window.CountIn(Window.Stamps(e.window.log), t - width, t) <= most
  {
    hide Inv, Window.Inv, Step;
    var st := InitialState(clock, budget, capacity, limit, width);
    InitialInv(clock, budget, capacity, limit, width);
    RunKeepsInv(st, run);
    ConfigurationKept(st, run);
    LogWithinRun(st, run, most);
    InvParts(After(st, run));
    Window.EveryWindowBounded(After(st, run).window, After(st, run).clock, most, t);
  }
}
