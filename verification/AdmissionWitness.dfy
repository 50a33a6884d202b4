/** Concrete runs in which a departed session keeps an episode's leadership.  They show that
    both conditions of a prudent run are needed, and that a leading driver must not give up
    between two attempts. */
module AdmissionWitness {
  import opened Common
  import opened AdmissionMachine
  import opened AdmissionInvariant
  import opened AdmissionTheorems
  import opened AdmissionStranding
  import Window = SlidingWindow

  /** Two sessions of the default model at time zero. */
  datatype Scene = Scene(x: Session, y: Session, ep: Option<Episode>, free: nat, next: nat, window: Window.Window)

  ghost function StateOf(sc: Scene, budget: nat): State {
    State(0.0, budget, 2, sc.free, 0, sc.next,
          if sc.ep.Some? then map[None := sc.ep.value] else map[],
          map[0 := sc.x, 1 := sc.y], sc.window)
  }

  ghost function Actor(sc: Scene, s: SessionId): Session {
    if s == 0 then sc.x else sc.y
  }

  ghost predicate Ready(sc: Scene, s: SessionId, op: Op) {
    && s < 2 && sc.x.model == None && sc.y.model == None && sc.window.limit > 0
    && OpEnabled(op, Actor(sc, s)) && (op.GrantSlot? ==> sc.free > 0)
  }

  ghost function SceneStep(sc: Scene, s: SessionId, op: Op, budget: nat): Scene
    requires Ready(sc, s, op)
  {
    var x := Actor(sc, s);
    var (w, rate) := if op.RatePass? then Window.PassAt(sc.window, 0.0, 0.0, PermitIsCurrent(s, x.pc.permit, sc.ep))
                     else (sc.window, Window.Refused);
    var c := SessionStep(op, s, x, sc.ep, 0.0, sc.next, budget, rate);
    var o := Affected(1 - s, Actor(sc, 1 - s), Waits(sc.ep, 1 - s), c);
    Scene(if s == 0 then c.x else o, if s == 0 then o else c.x, c.ep,
          sc.free + c.slots, sc.next + if c.spent then 1 else 0, w)
  }

  lemma {:induction false} Extend(st: State, run: seq<Action>, a: Action)
    requires LegalRun(st, run) && Enabled(After(st, run), a)
    ensures LegalRun(st, run + [a]) && After(st, run + [a]) == Step(After(st, run), a)
    decreases |run|
  {
    hide Step, Enabled;
    if run == [] {
      assert [a][1..] == [];
      assert run + [a] == [a];
      assert LegalRun(Step(st, a), []);
      assert After(Step(st, a), []) == Step(st, a);
    } else {
      assert (run + [a])[1..] == run[1..] + [a];
      Extend(Step(st, run[0]), run[1..], a);
    }
  }

  lemma {:induction false} SceneSteps(sc: Scene, s: SessionId, op: Op, budget: nat)
    requires Ready(sc, s, op)
    ensures Enabled(StateOf(sc, budget), Do(s, op))
    ensures Step(StateOf(sc, budget), Do(s, op)) == StateOf(SceneStep(sc, s, op, budget), budget)
  {
    hide SessionStep, OpEnabled, Affected;
    var st := StateOf(sc, budget);
    var st' := Step(st, Do(s, op));
    var sc' := SceneStep(sc, s, op, budget);
    assert EpisodeOf(st, None) == sc.ep;
    assert EpisodeOf(st, st.sessions[s].model) == sc.ep;
    assert ChangeOf(st, s, op) == SessionStep(op, s, Actor(sc, s), sc.ep, 0.0, sc.next, budget, RateResult(st, s, op).1);
    assert st'.sessions == map[0 := sc'.x, 1 := sc'.y];
    assert st'.episodes == StateOf(sc', budget).episodes;
  }

  /** The run so far ends in the scene. */
  ghost predicate At(st: State, run: seq<Action>, sc: Scene) {
    LegalRun(st, run) && After(st, run) == StateOf(sc, st.budget)
  }

  lemma {:induction false} Go(st: State, run: seq<Action>, sc: Scene, s: SessionId, op: Op)
    returns (run': seq<Action>, sc': Scene)
    requires At(st, run, sc) && Ready(sc, s, op)
    ensures At(st, run', sc') && sc' == SceneStep(sc, s, op, st.budget)
  {
    hide Step, SceneStep;
    SceneSteps(sc, s, op, st.budget);
    Extend(st, run, Do(s, op));
    run', sc' := run + [Do(s, op)], SceneStep(sc, s, op, st.budget);
  }

  lemma {:induction false} AfterNoLonger(times: seq<real>, cutoff: real)
    ensures |Window.After(times, cutoff)| <= |times|
  {
    if times != [] { AfterNoLonger(times[1..], cutoff); }
  }

  ghost predicate Roomy(sc: Scene, taken: nat) {
    sc.window.limit == 10 && |sc.window.times| <= taken
  }

  /** From a current permit to an open attempt. */
  lemma {:induction false} Admit(st: State, run: seq<Action>, sc: Scene, s: SessionId, taken: nat)
    returns (run': seq<Action>, sc': Scene)
    requires s < 2 && sc.x.model == None && sc.y.model == None && At(st, run, sc)
    requires Actor(sc, s).pc.AtRate? && PermitIsCurrent(s, Actor(sc, s).pc.permit, sc.ep)
    requires sc.free > 0 && Roomy(sc, taken) && taken < 10
    ensures At(st, run', sc') && Roomy(sc', taken + 1) && sc'.window.width == sc.window.width
    ensures var x := Actor(sc, s);
            var x' := x.(started := x.started + 1, pc := Holding(Attempt(x.pc.permit, false, false, false)));
            sc' == (if s == 0 then sc.(x := x') else sc.(y := x')).(free := sc.free - 1, window := sc'.window)
  {
    AfterNoLonger(sc.window.times, 0.0 - sc.window.width);
    var run1, sc1 := Go(st, run, sc, s, RatePass);
    var run2, sc2 := Go(st, run1, sc1, s, GrantSlot);
    run', sc' := Go(st, run2, sc2, s, Claim);
  }

  ghost function Newcomer(): Session {
    Session(None, 0, None, None, AtLock)
  }

  /** Both sessions started, nothing else done. */
  lemma {:induction false} Opening(budget: nat) returns (run: seq<Action>, sc: Scene)
    ensures At(InitialState(0.0, budget, 2, 10, 1.0), run, sc)
    ensures sc == Scene(Newcomer(), Newcomer(), None, 2, 1, Window.Fresh(10, 1.0))
  {
    var st := InitialState(0.0, budget, 2, 10, 1.0);
    sc := Scene(Newcomer(), Newcomer(), None, 2, 1, Window.Fresh(10, 1.0));
    assert After(st, []) == st && LegalRun(st, []);
    Extend(st, [], Start(0, None));
    Extend(st, [] + [Start(0, None)], Start(1, None));
    run := [] + [Start(0, None)] + [Start(1, None)];
    assert After(st, run).sessions == map[0 := Newcomer(), 1 := Newcomer()];
  }

  ghost function Failed(started: nat, permit: Permit): Session {
    Session(None, started, None, None, Holding(Attempt(permit, true, false, true)))
  }

  ghost function LedBy(s: SessionId, generation: nat, waiters: set<SessionId>): Episode {
    Episode(generation, Some(s), 0.0, "down", waiters, false, None)
  }

  /** Reading a session off the final scene. */
  lemma {:induction false} ReadOff(st: State, run: seq<Action>, sc: Scene, s: SessionId)
    requires At(st, run, sc) && s < 2
    ensures LegalRun(st, run) && s in After(st, run).sessions && After(st, run).sessions[s] == Actor(sc, s)
    ensures EpisodeOf(After(st, run), None) == sc.ep
  {
  }

  /** Exactly when recording a request correction strands the leadership: the driver cannot
      reopen, because the budget is spent or a terminal error was recorded meanwhile. */
  lemma {:induction false} CorrectionStrandsExactly(st: State, s: SessionId)
    requires Inv(st) && s in st.sessions && st.sessions[s].pc.Holding? && !st.sessions[s].pc.attempt.resolved
    requires MatchesProbe(s, st.sessions[s].pc.attempt.permit, EpisodeOf(st, st.sessions[s].model))
    ensures Enabled(st, Do(s, Correct)) && Enabled(Step(st, Do(s, Correct)), Do(s, Close(true)))
    ensures var x := st.sessions[s];
            var end := Step(Step(st, Do(s, Correct)), Do(s, Close(true)));
            && (Stranded(end, x.model, s) <==> x.started >= st.budget || (x.notBefore.None? && x.terminal.Some?))
            && (AllClean(st) ==> (Stranded(end, x.model, s) <==> x.started >= st.budget))
  {
    hide Inv, AllClean, Step, SessionStep;
    var x := st.sessions[s];
    Corrected(st, s);
    Closed(Step(st, Do(s, Correct)), s);
    if AllClean(st) {
      CleanLeader(st, s);
    }
  }

  lemma {:induction false} Corrected(st: State, s: SessionId)
    requires Inv(st) && s in st.sessions && st.sessions[s].pc.Holding? && !st.sessions[s].pc.attempt.resolved
    requires MatchesProbe(s, st.sessions[s].pc.attempt.permit, EpisodeOf(st, st.sessions[s].model))
    ensures Enabled(st, Do(s, Correct))
    ensures var x, mid := st.sessions[s], Step(st, Do(s, Correct));
            && mid.window.limit > 0 && mid.budget == st.budget && s in mid.sessions
            && mid.sessions[s] == x.(pc := Holding(x.pc.attempt.(resolved := true, again := true)))
            && Leads(mid, x.model, s)
  {
    hide Inv;
    PositiveWindow(st);
    assert EpisodeOf(Step(st, Do(s, Correct)), st.sessions[s].model).Some?;
  }

  lemma {:induction false} Closed(st: State, s: SessionId)
    requires st.window.limit > 0 && s in st.sessions && OpEnabled(Close(true), st.sessions[s])
    requires st.sessions[s].pc.attempt.resolved && Leads(st, st.sessions[s].model, s)
    ensures Enabled(st, Do(s, Close(true)))
    ensures var x, end := st.sessions[s], Step(st, Do(s, Close(true)));
            && s in end.sessions && end.sessions[s] == Reopened(x, st.budget) && Leads(end, x.model, s)
  {
    SamePut(st.episodes, st.sessions[s].model);
  }

  lemma {:induction false} PositiveWindow(st: State)
    requires Inv(st)
    ensures st.window.limit > 0
  {
    InvParts(st);
    Window.InvPositive(st.window, st.clock);
  }

  /** Recording a request correction when the budget is spent strands the leadership. */
  lemma {:induction false} SpentCorrectionStrands() returns (run: seq<Action>)
    ensures var st := InitialState(0.0, 2, 2, 10, 1.0);
            LegalRun(st, run) && Stranded(After(st, run), None, 0)
  {
    hide At, LegalRun, After, StateOf;
    var st := InitialState(0.0, 2, 2, 10, 1.0);
    var sc;
    run, sc := Opening(2);
    run, sc := Go(st, run, sc, 0, EnterGate);
    run, sc := Admit(st, run, sc, 0, 0);
    run, sc := Go(st, run, sc, 0, Fail("down", 0.0, 0.0));
    assert sc.x == Failed(1, Normal) && sc.ep == Some(LedBy(0, 1, {}));
    run, sc := Go(st, run, sc, 0, Close(true));
    run, sc := Go(st, run, sc, 0, EnterGate);
    run, sc := Admit(st, run, sc, 0, 1);
    run, sc := Go(st, run, sc, 0, Correct);
    run, sc := Go(st, run, sc, 0, Close(true));
    assert sc.x.pc.Ended? && sc.ep.value.leader == Some(0);
    ReadOff(st, run, sc, 0);
  }

  /** A driver that gives up between two attempts of a leading session strands the leadership: the attempt has
      failed, is closed, and what the driver does before it reopens fails. */
  lemma {:induction false} PausedLeaderStrands() returns (run: seq<Action>)
    ensures var st := InitialState(0.0, 2, 2, 10, 1.0);
            LegalRun(st, run) && Stranded(After(st, run), None, 0)
  {
    hide At, LegalRun, After, StateOf;
    var st := InitialState(0.0, 2, 2, 10, 1.0);
    var sc;
    run, sc := Opening(2);
    run, sc := Go(st, run, sc, 0, EnterGate);
    run, sc := Admit(st, run, sc, 0, 0);
    run, sc := Go(st, run, sc, 0, Fail("down", 0.0, 0.0));
    run, sc := Go(st, run, sc, 0, Pause);
    run, sc := Go(st, run, sc, 0, Leave);
    assert sc.x.pc.Ended? && sc.ep.value.leader == Some(0);
    ReadOff(st, run, sc, 0);
  }

  /** Session 0 leads its episode with its last attempt open; session 1 has failed, waits
      in the same episode, and is already past the terminal check at the lock. */
  lemma {:induction false} BothInTrouble() returns (run: seq<Action>, sc: Scene)
    ensures At(InitialState(0.0, 3, 2, 10, 1.0), run, sc) && Roomy(sc, 4)
    ensures sc.x == Session(None, 3, None, None, Holding(Attempt(Probe(1, 0.0), false, false, false)))
    ensures sc.y == Session(None, 1, None, None, AtLock)
    ensures sc.ep == Some(LedBy(0, 1, {1}).(probeActive := true)) && sc.free == 1 && sc.next == 2
  {
    hide At, LegalRun, After, StateOf;
    var st := InitialState(0.0, 3, 2, 10, 1.0);
    run, sc := Opening(3);
    run, sc := Go(st, run, sc, 0, EnterGate);
    run, sc := Admit(st, run, sc, 0, 0);
    run, sc := Go(st, run, sc, 1, EnterGate);
    run, sc := Admit(st, run, sc, 1, 1);
    run, sc := Go(st, run, sc, 0, Fail("down", 0.0, 0.0));
    run, sc := Go(st, run, sc, 1, Fail("down", 0.0, 0.0));
    assert sc.ep.value.waiters == {1};
    assert sc.x == Failed(1, Normal) && sc.y == Failed(1, Normal) && sc.ep == Some(LedBy(0, 1, {1}));
    run, sc := Go(st, run, sc, 0, Close(true));
    run, sc := Go(st, run, sc, 0, EnterGate);
    run, sc := Admit(st, run, sc, 0, 2);
    run, sc := Go(st, run, sc, 0, Fail("down", 0.0, 0.0));
    assert sc.x == Failed(2, Probe(1, 0.0)) && sc.y == Failed(1, Normal) && sc.ep == Some(LedBy(0, 1, {1}));
    run, sc := Go(st, run, sc, 0, Close(true));
    run, sc := Go(st, run, sc, 0, EnterGate);
    run, sc := Admit(st, run, sc, 0, 3);
    run, sc := Go(st, run, sc, 1, Close(true));
  }

  /** The leader exhausts the episode while session 1 stands at the lock. */
  lemma {:induction false} DoomedAtTheLock() returns (run: seq<Action>, sc: Scene)
    ensures At(InitialState(0.0, 3, 2, 10, 1.0), run, sc) && Roomy(sc, 4)
    ensures sc.x == Session(None, 3, None, None, Holding(Attempt(Probe(1, 0.0), true, false, false)))
    ensures sc.y == Session(None, 1, Some("down"), None, AtLock)
    ensures sc.ep == Some(Episode(1, None, 0.0, "down", {}, false, Some(0.0))) && sc.free == 1 && sc.next == 2
  {
    hide At, LegalRun, After, StateOf;
    run, sc := BothInTrouble();
    run, sc := Go(InitialState(0.0, 3, 2, 10, 1.0), run, sc, 0, Fail("down", 0.0, 0.0));
  }

  /** Session 1 restarts the episode as its leader and claims an attempt. */
  lemma {:induction false} DoomedClaims(before: seq<Action>, sc: Scene) returns (run: seq<Action>, sc': Scene)
    requires At(InitialState(0.0, 3, 2, 10, 1.0), before, sc) && Roomy(sc, 4)
    requires sc.y == Session(None, 1, Some("down"), None, AtLock) && sc.x.model == None
    requires sc.ep == Some(Episode(1, None, 0.0, "down", {}, false, Some(0.0))) && sc.free == 1 && sc.next == 2
    ensures At(InitialState(0.0, 3, 2, 10, 1.0), run, sc') && Roomy(sc', 5) && sc'.x.model == None
    ensures sc'.y == Session(None, 2, Some("down"), None, Holding(Attempt(Probe(2, 0.0), false, false, false)))
    ensures sc'.ep == Some(LedBy(1, 2, {}).(probeActive := true)) && sc'.free == 0
  {
    hide At, LegalRun, After, StateOf;
    var st := InitialState(0.0, 3, 2, 10, 1.0);
    run, sc' := Go(st, before, sc, 1, EnterGate);
    run, sc' := Admit(st, run, sc', 1, 4);
  }

  /** Its attempt fails with budget left, and at the gate its old terminal error ends it. */
  lemma {:induction false} DoomedEnds(claimed: seq<Action>, sc: Scene) returns (run: seq<Action>, sc': Scene)
    requires At(InitialState(0.0, 3, 2, 10, 1.0), claimed, sc) && Roomy(sc, 5) && sc.x.model == None
    requires sc.y == Session(None, 2, Some("down"), None, Holding(Attempt(Probe(2, 0.0), false, false, false)))
    requires sc.ep == Some(LedBy(1, 2, {}).(probeActive := true))
    ensures At(InitialState(0.0, 3, 2, 10, 1.0), run, sc')
    ensures sc'.y.pc.Ended? && sc'.ep.Some? && sc'.ep.value.leader == Some(1)
  {
    hide At, LegalRun, After, StateOf;
    var st := InitialState(0.0, 3, 2, 10, 1.0);
    run, sc' := Go(st, claimed, sc, 1, Fail("down", 0.0, 0.0));
    run, sc' := Go(st, run, sc', 1, Close(true));
  }

  /** A hypothetical run, which the program cannot take because nothing holds the condition's lock across an await:
      if acquiring that lock could suspend, a waiter past the terminal check would outlive the exhaustion of its
      episode, claim another attempt although its terminal error is recorded, and later leave as the leader of a
      stranded episode. */
  lemma {:induction false} ContendedLockStrands() returns (before: seq<Action>, claimed: seq<Action>, run: seq<Action>)
    ensures var st := InitialState(0.0, 3, 2, 10, 1.0);
            && LegalRun(st, before) && LegalRun(st, claimed) && LegalRun(st, run)
            && 1 in After(st, before).sessions && After(st, before).sessions[1].terminal == Some("down")
            && 1 in After(st, claimed).sessions
            && After(st, before).sessions[1].started < After(st, claimed).sessions[1].started
            && Stranded(After(st, run), None, 1)
  {
    hide At, LegalRun, After, StateOf;
    var st := InitialState(0.0, 3, 2, 10, 1.0);
    var sc;
    before, sc := DoomedAtTheLock();
    ReadOff(st, before, sc, 1);
    claimed, sc := DoomedClaims(before, sc);
    ReadOff(st, claimed, sc, 1);
    run, sc := DoomedEnds(claimed, sc);
    ReadOff(st, run, sc, 1);
  }
}
