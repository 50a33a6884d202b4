/** What becomes of the sessions waiting for an episode that is exhausted. */
module AdmissionWaiters {
  import opened Common
  import opened AdmissionMachine
  import opened AdmissionInvariant
  import opened AdmissionTheorems
  import Window = SlidingWindow

  // ----- while they wait -----

  /** A waiter has no terminal error, has budget for the attempt it was promised, and if it has ended was cancelled or left. */
  predicate Hopeful(x: Session, budget: nat) {
    && x.terminal.None?
    && (x.pc.Ended? ==> x.pc.outcome.Cancelled? || x.pc.outcome.Left?)
    && (Retrying(x.pc) ==> x.started < budget)
  }

  predicate HopefulIf(waits: bool, x: Session, budget: nat) {
    waits ==> Hopeful(x, budget)
  }

  ghost predicate WaitersHopeful(st: State) {
    forall s | s in st.sessions :: HopefulIf(Waits(EpisodeOf(st, st.sessions[s].model), s), st.sessions[s], st.budget)
  }

  lemma {:induction false} HopefulGate(op: Op, s: SessionId, x: Session, ep: Option<Episode>, clock: real, next: nat,
                                     budget: nat, rate: Window.PassResult)
    requires Pair(s, x, ep, clock, budget) && ShapeOf(ep, next) && OpEnabled(op, x)
    requires Clean(s, x, ep, budget) && HopefulIf(Waits(ep, s), x, budget)
    requires op.EnterGate? || op.Recheck?
    ensures var c := SessionStep(op, s, x, ep, clock, next, budget, rate); HopefulIf(Waits(c.ep, s), c.x, budget)
  {
  }

  lemma {:induction false} HopefulFail(op: Op, s: SessionId, x: Session, ep: Option<Episode>, clock: real, next: nat,
                                     budget: nat, rate: Window.PassResult)
    requires Pair(s, x, ep, clock, budget) && ShapeOf(ep, next) && OpEnabled(op, x)
    requires Clean(s, x, ep, budget) && HopefulIf(Waits(ep, s), x, budget)
    requires op.Fail?
    ensures var c := SessionStep(op, s, x, ep, clock, next, budget, rate); HopefulIf(Waits(c.ep, s), c.x, budget)
  {
  }

  lemma {:induction false} HopefulResolve(op: Op, s: SessionId, x: Session, ep: Option<Episode>, clock: real, next: nat,
                                     budget: nat, rate: Window.PassResult)
    requires Pair(s, x, ep, clock, budget) && ShapeOf(ep, next) && OpEnabled(op, x)
    requires Clean(s, x, ep, budget) && HopefulIf(Waits(ep, s), x, budget)
    requires op.Succeed? || op.Correct? || op.Reject? || op.AcceptedFail?
    ensures var c := SessionStep(op, s, x, ep, clock, next, budget, rate); HopefulIf(Waits(c.ep, s), c.x, budget)
  {
  }

  lemma {:induction false} HopefulClose(op: Op, s: SessionId, x: Session, ep: Option<Episode>, clock: real, next: nat,
                                     budget: nat, rate: Window.PassResult)
    requires Pair(s, x, ep, clock, budget) && ShapeOf(ep, next) && OpEnabled(op, x)
    requires Clean(s, x, ep, budget) && HopefulIf(Waits(ep, s), x, budget)
    requires op.Close? || op.Release? || op.Pause? || op.Reopen? || op.Leave?
    ensures var c := SessionStep(op, s, x, ep, clock, next, budget, rate); HopefulIf(Waits(c.ep, s), c.x, budget)
  {
  }

  lemma {:induction false} HopefulWait(op: Op, s: SessionId, x: Session, ep: Option<Episode>, clock: real, next: nat,
                                     budget: nat, rate: Window.PassResult)
    requires Pair(s, x, ep, clock, budget) && ShapeOf(ep, next) && OpEnabled(op, x)
    requires Clean(s, x, ep, budget) && HopefulIf(Waits(ep, s), x, budget)
    requires !op.EnterGate? && !op.Recheck? && !op.Fail? && !op.Succeed? && !op.Correct? && !op.Reject? && !op.AcceptedFail?
    requires !op.Close? && !op.Release? && !op.Pause? && !op.Reopen? && !op.Leave?
    ensures var c := SessionStep(op, s, x, ep, clock, next, budget, rate); HopefulIf(Waits(c.ep, s), c.x, budget)
  {
  }

  lemma {:induction false} HopefulStep(op: Op, s: SessionId, x: Session, ep: Option<Episode>, clock: real, next: nat,
                                       budget: nat, rate: Window.PassResult)
    requires Pair(s, x, ep, clock, budget) && ShapeOf(ep, next) && OpEnabled(op, x)
    requires Clean(s, x, ep, budget) && HopefulIf(Waits(ep, s), x, budget)
    ensures var c := SessionStep(op, s, x, ep, clock, next, budget, rate);
            HopefulIf(Waits(c.ep, s), c.x, budget)
  {
    hide Pair, ShapeOf, SessionStep, HopefulIf, Clean, OpEnabled, Waits;
    match op
    case EnterGate | Recheck => HopefulGate(op, s, x, ep, clock, next, budget, rate);
    case Fail(_, _, _) => HopefulFail(op, s, x, ep, clock, next, budget, rate);
    case Succeed | Correct | Reject | AcceptedFail(_) => HopefulResolve(op, s, x, ep, clock, next, budget, rate);
    case Close(_) | Release | Pause | Reopen | Leave => HopefulClose(op, s, x, ep, clock, next, budget, rate);
    case _ => HopefulWait(op, s, x, ep, clock, next, budget, rate);
  }

  lemma {:induction false} HopefulOther(s: SessionId, t: SessionId, y: Session, ep: Option<Episode>, c: Change, next: nat, budget: nat)
    requires s != t && Frame(s, ep, c) && ShapeOf(c.ep, next) && (c.doom.Some? ==> c.ep.Some? && c.ep.value.terminalUntil.Some?)
    requires HopefulIf(Waits(ep, t), y, budget)
    ensures HopefulIf(Waits(c.ep, t), Affected(t, y, Waits(ep, t), c), budget)
  {
  }

  lemma {:induction false} HopefulStranger(t: SessionId, y: Session, ep: Option<Episode>, c: Change, budget: nat)
    requires HopefulIf(Waits(ep, t), y, budget)
    ensures HopefulIf(Waits(ep, t), Affected(t, y, false, c), budget)
  {
  }

  lemma {:induction false} LocalParts(s: SessionId, x: Session, ep: Option<Episode>, c: Change, clock: real, next: nat, budget: nat)
    requires LocalResult(s, x, ep, c, clock, next, budget)
    ensures c.x.model == x.model && Frame(s, ep, c) && ShapeOf(c.ep, next + if c.spent then 1 else 0)
    ensures c.doom.Some? ==> c.ep.Some? && c.ep.value.terminalUntil.Some?
  {
  }

  lemma {:induction false} StepKeepsWaitersHopeful(st: State, a: Action)
    requires Inv(st) && AllClean(st) && WaitersHopeful(st) && Enabled(st, a)
    ensures WaitersHopeful(Step(st, a))
  {
    hide Window.Inv, LocalResult, Pair, Clean, SessionStep, HopefulIf, Shape, Frame;
    var st' := Step(st, a);
    if a.Do? {
      var s, op := a.s, a.op;
      var m := st.sessions[s].model;
      var ep, c := EpisodeOf(st, m), ChangeOf(st, s, op);
      OneStepLocal(st, s, op);
      LocalParts(s, st.sessions[s], ep, c, st.clock, st.nextGeneration, st.budget);
      assert EpisodeOf(st', m) == c.ep;
      forall t | t in st'.sessions
        ensures HopefulIf(Waits(EpisodeOf(st', st'.sessions[t].model), t), st'.sessions[t], st'.budget)
      {
        var y := st.sessions[t];
        assert Pair(t, y, EpisodeOf(st, y.model), st.clock, st.budget);
        assert Clean(t, y, EpisodeOf(st, y.model), st.budget);
        assert HopefulIf(Waits(EpisodeOf(st, y.model), t), y, st.budget);
        if t == s {
          HopefulStep(op, s, y, ep, st.clock, st.nextGeneration, st.budget, RateResult(st, s, op).1);
        } else if y.model == m {
          HopefulOther(s, t, y, ep, c, st.nextGeneration + if c.spent then 1 else 0, st.budget);
        } else {
          WaitersShareTheModel(st, s, t);
          HopefulStranger(t, y, EpisodeOf(st, y.model), c, st.budget);
        }
      }
    } else {
      HopefulElsewhere(st, a);
    }
  }

  lemma {:induction false} HopefulElsewhere(st: State, a: Action)
    requires Inv(st) && WaitersHopeful(st) && Enabled(st, a) && !a.Do?
    ensures WaitersHopeful(Step(st, a))
  {
    hide Window.Inv;
    var st' := Step(st, a);
    forall t | t in st'.sessions
      ensures HopefulIf(Waits(EpisodeOf(st', st'.sessions[t].model), t), st'.sessions[t], st'.budget)
    {
      if t in st.sessions {
        assert HopefulIf(Waits(EpisodeOf(st, st.sessions[t].model), t), st.sessions[t], st.budget);
      } else {
        var m := st'.sessions[t].model;
        if m in st.episodes {
          assert Members(st, m, st.episodes[m]);
        }
      }
    }
  }

  lemma {:induction false} PrudentRunKeepsWaitersHopeful(st: State, run: seq<Action>)
    requires Inv(st) && AllClean(st) && WaitersHopeful(st) && LegalRun(st, run) && PrudentRun(st, run)
    ensures Inv(After(st, run)) && AllClean(After(st, run)) && WaitersHopeful(After(st, run))
    decreases |run|
  {
    hide Inv, Step, AllClean, Prudent, WaitersHopeful;
    if run != [] {
      StepKeepsInv(st, run[0]);
      PrudentStepStaysClean(st, run[0]);
      StepKeepsWaitersHopeful(st, run[0]);
      PrudentRunKeepsWaitersHopeful(Step(st, run[0]), run[1..]);
    }
  }

  // ----- once their episode is exhausted -----

  /** A former waiter: it has the terminal error, waits for nothing any more, and can only raise it or be gone before. */
  predicate Spent(x: Session, error: Error, started: nat, budget: nat) {
    && x.terminal == Some(error) && x.started == started
    && (|| x.pc.Parked? || x.pc.Orphaning? || (Retrying(x.pc) && started < budget)
        || x.pc == Ended(Cancelled) || x.pc == Ended(Left) || x.pc == Ended(RecoveryExhausted(error)))
  }

  ghost predicate Doomed(st: State, w: SessionId, error: Error, started: nat) {
    && w in st.sessions && Spent(st.sessions[w], error, started, st.budget)
    && !Waits(EpisodeOf(st, st.sessions[w].model), w)
  }

  lemma {:induction false} SpentStep(op: Op, w: SessionId, x: Session, ep: Option<Episode>, clock: real, next: nat,
                                     budget: nat, rate: Window.PassResult, error: Error, started: nat)
    requires Pair(w, x, ep, clock, budget) && OpEnabled(op, x)
    requires Spent(x, error, started, budget) && !Waits(ep, w)
    ensures var c := SessionStep(op, w, x, ep, clock, next, budget, rate);
            Spent(c.x, error, started, budget) && !Waits(c.ep, w)
  {
  }

  lemma {:induction false} SpentOther(s: SessionId, w: SessionId, y: Session, ep: Option<Episode>, c: Change, error: Error,
                                      started: nat, budget: nat)
    requires s != w && Frame(s, ep, c) && Spent(y, error, started, budget) && !Waits(ep, w)
    ensures Spent(Affected(w, y, Waits(ep, w), c), error, started, budget) && !Waits(c.ep, w)
  {
  }

  lemma {:induction false} SpentStranger(w: SessionId, y: Session, c: Change, error: Error, started: nat, budget: nat)
    requires Spent(y, error, started, budget)
    ensures Spent(Affected(w, y, false, c), error, started, budget)
  {
  }

  lemma {:induction false} StepKeepsDoomed(st: State, a: Action, w: SessionId, error: Error, started: nat)
    requires Inv(st) && Enabled(st, a) && Doomed(st, w, error, started)
    ensures Doomed(Step(st, a), w, error, started)
  {
    hide Window.Inv, LocalResult, Pair, SessionStep, Spent, Frame, Shape;
    var y := st.sessions[w];
    assert Pair(w, y, EpisodeOf(st, y.model), st.clock, st.budget);
    if a.Do? {
      var s, op := a.s, a.op;
      var m := st.sessions[s].model;
      var ep, c := EpisodeOf(st, m), ChangeOf(st, s, op);
      OneStepLocal(st, s, op);
      LocalParts(s, st.sessions[s], ep, c, st.clock, st.nextGeneration, st.budget);
      assert EpisodeOf(Step(st, a), m) == c.ep;
      if s == w {
        SpentStep(op, w, y, ep, st.clock, st.nextGeneration, st.budget, RateResult(st, s, op).1, error, started);
      } else if y.model == m {
        SpentOther(s, w, y, ep, c, error, started, st.budget);
      } else {
        WaitersShareTheModel(st, s, w);
        SpentStranger(w, y, c, error, started, st.budget);
      }
    }
  }

  lemma {:induction false} RunKeepsDoomed(st: State, run: seq<Action>, w: SessionId, error: Error, started: nat)
    requires Inv(st) && LegalRun(st, run) && Doomed(st, w, error, started)
    ensures Doomed(After(st, run), w, error, started)
    decreases |run|
  {
    hide Inv, Step, Doomed;
    if run != [] {
      StepKeepsInv(st, run[0]);
      StepKeepsDoomed(st, run[0], w, error, started);
      RunKeepsDoomed(Step(st, run[0]), run[1..], w, error, started);
    }
  }

  lemma {:induction false} ExhaustionDooms(st: State, s: SessionId, error: Error, delay: real, hold: real, w: SessionId)
    requires Inv(st) && WaitersHopeful(st) && Enabled(st, Do(s, Fail(error, delay, hold)))
    requires Prudent(st, Do(s, Fail(error, delay, hold))) && st.sessions[s].started == st.budget
    requires MatchesProbe(s, st.sessions[s].pc.attempt.permit, EpisodeOf(st, st.sessions[s].model))
    requires Waits(EpisodeOf(st, st.sessions[s].model), w)
    ensures w in st.sessions && Doomed(Step(st, Do(s, Fail(error, delay, hold))), w, error, st.sessions[w].started)
  {
    hide Window.Inv;
    var m := st.sessions[s].model;
    assert Members(st, m, st.episodes[m]);
    assert Pair(w, st.sessions[w], EpisodeOf(st, m), st.clock, st.budget);
    assert Pair(s, st.sessions[s], EpisodeOf(st, m), st.clock, st.budget);
    assert HopefulIf(Waits(EpisodeOf(st, m), w), st.sessions[w], st.budget);
  }

  /** The promise to the waiters, over every run from the start in which the condition's lock is never contended and
      corrections respect the budget, followed by the exhausting failure and then any run at all: each session in the
      episode's waiter set has that failure's error as its terminal error, has started no further attempt, and if it
      has ended it raised that error, was cancelled, or left between two attempts. */
  lemma {:induction false} WaitersReceiveTheTerminalError(
      clock: real, budget: nat, capacity: nat, limit: int, width: real, before: seq<Action>,
      s: SessionId, error: Error, delay: real, hold: real, after: seq<Action>, w: SessionId)
    requires budget > 0 && limit > 0 && width > 0.0
    requires var init := InitialState(clock, budget, capacity, limit, width);
             LegalRun(init, before) && PrudentRun(init, before)
    requires var st := After(InitialState(clock, budget, capacity, limit, width), before);
             var fail := Do(s, Fail(error, delay, hold));
             && Enabled(st, fail) && Prudent(st, fail) && st.sessions[s].started == st.budget
             && MatchesProbe(s, st.sessions[s].pc.attempt.permit, EpisodeOf(st, st.sessions[s].model))
             && Waits(EpisodeOf(st, st.sessions[s].model), w)
             && LegalRun(Step(st, fail), after)
    ensures var st := After(InitialState(clock, budget, capacity, limit, width), before);
            var end := After(Step(st, Do(s, Fail(error, delay, hold))), after);
            && w in st.sessions && w in end.sessions
            && end.sessions[w].terminal == Some(error)
            && end.sessions[w].started == st.sessions[w].started
            && (end.sessions[w].pc.Ended? ==> end.sessions[w].pc.outcome in {RecoveryExhausted(error), Cancelled, Left})
  {
    hide Inv, Step, AllClean, WaitersHopeful, Prudent, MatchesProbe, Waits;
    var init := InitialState(clock, budget, capacity, limit, width);
    InitialInv(clock, budget, capacity, limit, width);
    NobodyWaitsAtFirst(clock, budget, capacity, limit, width);
    PrudentRunKeepsWaitersHopeful(init, before);
    var st := After(init, before);
    var fail := Do(s, Fail(error, delay, hold));
    ExhaustionDooms(st, s, error, delay, hold, w);
    StepKeepsInv(st, fail);
    RunKeepsDoomed(Step(st, fail), after, w, error, st.sessions[w].started);
  }

  lemma {:induction false} NobodyWaitsAtFirst(clock: real, budget: nat, capacity: nat, limit: int, width: real)
    ensures var init := InitialState(clock, budget, capacity, limit, width); AllClean(init) && WaitersHopeful(init)
  {
  }
}
