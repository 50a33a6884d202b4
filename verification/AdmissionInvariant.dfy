/** What every step of provider admission keeps, over all interleavings. */
module AdmissionInvariant {
  import opened Common
  import opened AdmissionMachine
  import Window = SlidingWindow

  // ----- classification of program counters -----

  predicate HoldsSlot(pc: Pc) {
    pc.Granted? || pc.Holding? || pc.Closing?
  }

  /** The permit a session still has to use, give back or resolve. */
  function LivePermit(pc: Pc): Option<Permit> {
    match pc
    case AtRate(p) => Some(p)
    case AtSlot(p) => Some(p)
    case Granted(p) => Some(p)
    case Dropping(p, _) => Some(p)
    case Holding(a) => if a.resolved then None else Some(a.permit)
    case Closing(p) => Some(p)
    case _ => None
  }

  /** On the way to claiming an attempt. */
  predicate BeforeClaim(pc: Pc) {
    || pc.BackingOff? || pc.AtLock? || pc.Parked? || pc.ParkedLeader? || pc.Sleeping?
    || pc.AtRate? || pc.AtSlot? || pc.Granted? || (pc.Dropping? && !pc.leaving)
  }

  /** Told to try again an attempt that was never accepted, and not reopened yet. */
  predicate Retrying(pc: Pc) {
    || (pc.Holding? && pc.attempt.resolved && !pc.attempt.accepted && pc.attempt.again)
    || pc == Pausing(false)
  }

  predicate Unnotified(pc: Pc) {
    pc.Parked? && !pc.notified
  }

  // ----- the invariant, one session against its model's episode -----

  predicate Budgeted(x: Session, budget: nat) {
    && x.started <= budget
    && (BeforeClaim(x.pc) ==> x.started < budget)
    && (x.pc.Holding? || x.pc.Closing? ==> x.started >= 1)
    && (x.pc.Holding? && !x.pc.attempt.resolved ==> !x.pc.attempt.accepted && !x.pc.attempt.again)
    && (x.notBefore.Some? ==> x.pc.BackingOff? || x.pc.Ended? || x.pc == Pausing(true) || (x.pc.Holding? && x.pc.attempt.accepted))
  }

  /** A leader between probes: still in the protocol, or ended with a terminal error
      recorded against it, with its budget spent, or between two attempts. */
  predicate IdleLeader(x: Session, generation: nat, budget: nat) {
    || x.pc.AtLock? || x.pc == Sleeping(generation) || x.pc == Yielding(generation) || x.pc.Orphaning?
    || Retrying(x.pc)
    || (x.pc.Ended? && (x.terminal.Some? || x.started == budget || x.pc.outcome.Left?))
  }

  predicate WaiterPc(pc: Pc) {
    pc.Parked? || pc.AtLock? || pc.Orphaning? || pc.Ended? || Retrying(pc)
  }

  predicate ProbeOwner(s: SessionId, permit: Permit, ep: Option<Episode>, clock: real) {
    permit.Probe? ==>
      && ep.Some? && ep.value.generation == permit.generation && ep.value.leader == Some(s)
      && ep.value.probeActive && ep.value.readyAt <= permit.grantedAt <= clock
  }

  predicate LeaderOk(s: SessionId, x: Session, e: Episode, budget: nat) {
    && s !in e.waiters && e.terminalUntil.None?
    && if e.probeActive then LivePermit(x.pc).Some? && LivePermit(x.pc).value.Probe?
       else IdleLeader(x, e.generation, budget)
  }

  predicate Pair(s: SessionId, x: Session, ep: Option<Episode>, clock: real, budget: nat) {
    && Budgeted(x, budget)
    && !x.pc.ParkedLeader?
    && (LivePermit(x.pc).Some? ==> ProbeOwner(s, LivePermit(x.pc).value, ep, clock))
    && (Unnotified(x.pc) ==>
          && ep.Some? && ep.value.generation == x.pc.generation && ep.value.terminalUntil.None?
          && ep.value.leader.Some? && ep.value.leader.value != s)
    && (ep.Some? && ep.value.leader == Some(s) ==> LeaderOk(s, x, ep.value, budget))
    && (ep.Some? && s in ep.value.waiters ==> WaiterPc(x.pc))
  }

  /** The shape of an episode: an exhausted one has no leader, probe or waiters. */
  predicate Shape(e: Episode, next: nat) {
    && e.generation < next
    && (e.probeActive ==> e.leader.Some?)
    && (e.terminalUntil.Some? ==> e.leader.None? && !e.probeActive && e.waiters == {})
  }

  predicate ShapeOf(ep: Option<Episode>, next: nat) {
    ep.Some? ==> Shape(ep.value, next)
  }

  ghost predicate Member(st: State, t: SessionId, m: Model) {
    t in st.sessions && st.sessions[t].model == m
  }

  ghost predicate Members(st: State, m: Model, e: Episode) {
    && (e.leader.Some? ==> Member(st, e.leader.value, m))
    && (forall t | t in e.waiters :: Member(st, t, m))
  }

  ghost predicate SessionsOk(st: State) {
    forall s | s in st.sessions ::
      Pair(s, st.sessions[s], EpisodeOf(st, st.sessions[s].model), st.clock, st.budget)
  }

  ghost predicate EpisodesOk(st: State) {
    forall m | m in st.episodes :: Shape(st.episodes[m], st.nextGeneration) && Members(st, m, st.episodes[m])
  }

  /** No two episodes share a generation. */
  ghost predicate GenerationsDistinct(st: State) {
    forall m, n | m in st.episodes && n in st.episodes && m != n ::
      st.episodes[m].generation != st.episodes[n].generation
  }

  ghost function Holders(sessions: map<SessionId, Session>): set<SessionId> {
    set s | s in sessions && HoldsSlot(sessions[s].pc)
  }

  ghost predicate SlotsOk(st: State) {
    st.free + |Holders(st.sessions)| + st.hedges == st.capacity
  }

  ghost predicate Inv(st: State) {
    && st.budget > 0
    && SessionsOk(st) && EpisodesOk(st) && GenerationsDistinct(st) && SlotsOk(st)
    && Window.Inv(st.window, st.clock)
  }

  // ----- one step, seen locally -----

  function HeldBy(pc: Pc): int {
    if HoldsSlot(pc) then 1 else 0
  }

  /** What a step of `s` may do to the episode, as the other sessions of its model see it:
      another session's leadership is left alone, and if `s` itself stops leading or the
      episode goes, everyone is notified. */
  predicate Frame(s: SessionId, ep: Option<Episode>, c: Change) {
    && (c.ep.Some? ==> forall t | t in c.ep.value.waiters :: t == s || Waits(ep, t))
    && (ep.Some? && ep.value.leader.Some? && ep.value.leader != Some(s) ==>
          && c.ep.Some? && c.ep.value.generation == ep.value.generation && c.ep.value.leader == ep.value.leader
          && c.ep.value.readyAt == ep.value.readyAt && c.ep.value.probeActive == ep.value.probeActive
          && c.ep.value.terminalUntil == ep.value.terminalUntil)
    && (!(ep.Some? && ep.value.leader.Some? && ep.value.leader != Some(s)) && c.ep.Some? ==>
          c.ep.value.leader.None? || c.ep.value.leader == Some(s))
    && (ep.Some? && ep.value.leader == Some(s) && !c.notify ==>
          && c.ep.Some? && c.ep.value.generation == ep.value.generation && c.ep.value.terminalUntil.None?
          && c.ep.value.leader == Some(s))
    && (c.ep.Some? ==>
          if ep.Some? && !c.spent then c.ep.value.generation == ep.value.generation else c.spent)
  }

  predicate LocalResult(s: SessionId, x: Session, ep: Option<Episode>, c: Change, clock: real, next: nat, budget: nat) {
    && c.x.model == x.model
    && c.slots == HeldBy(x.pc) - HeldBy(c.x.pc)
    && Pair(s, c.x, c.ep, clock, budget)
    && ShapeOf(c.ep, next + if c.spent then 1 else 0)
    && (c.spent ==> c.ep.Some? && c.ep.value.generation == next)
    && (c.doom.Some? ==> c.ep.Some? && c.ep.value.terminalUntil.Some? && !Waits(ep, s))
    && Frame(s, ep, c)
  }

  lemma {:induction false} GateStep(s: SessionId, x: Session, ep: Option<Episode>, clock: real, next: nat, budget: nat)
    requires Pair(s, x, ep, clock, budget) && ShapeOf(ep, next) && x.pc.AtLock?
    ensures LocalResult(s, x, ep, GatePass(s, x, ep, clock, next), clock, next, budget)
  {
  }

  lemma {:induction false} RecheckStep(s: SessionId, x: Session, ep: Option<Episode>, clock: real, next: nat, budget: nat)
    requires Pair(s, x, ep, clock, budget) && ShapeOf(ep, next) && x.pc.Sleeping?
    ensures LocalResult(s, x, ep, RecheckPass(s, x, ep, clock), clock, next, budget)
  {
  }

  lemma {:induction false} FailStep(s: SessionId, x: Session, ep: Option<Episode>, clock: real, next: nat, budget: nat,
                                    error: Error, delay: real, terminalDelay: real)
    requires Pair(s, x, ep, clock, budget) && ShapeOf(ep, next) && x.pc.Holding? && !x.pc.attempt.resolved
    requires delay >= 0.0 && terminalDelay >= 0.0
    ensures LocalResult(s, x, ep, FailPass(s, x, ep, clock, next, budget, error, delay, terminalDelay), clock, next, budget)
  {
  }

  lemma {:induction false} CloseStep(s: SessionId, x: Session, ep: Option<Episode>, clock: real, next: nat, budget: nat, reopen: bool)
    requires Pair(s, x, ep, clock, budget) && ShapeOf(ep, next) && OpEnabled(Close(reopen), x)
    ensures LocalResult(s, x, ep, ClosePass(x, ep, budget, reopen), clock, next, budget)
  {
  }

  lemma {:induction false} PauseStep(op: Op, s: SessionId, x: Session, ep: Option<Episode>, clock: real, next: nat,
                                     budget: nat, rate: Window.PassResult)
    requires Pair(s, x, ep, clock, budget) && ShapeOf(ep, next) && OpEnabled(op, x)
    requires op.Pause? || op.Reopen?
    ensures LocalResult(s, x, ep, SessionStep(op, s, x, ep, clock, next, budget, rate), clock, next, budget)
  {
  }

  lemma {:induction false} WaitingStep(op: Op, s: SessionId, x: Session, ep: Option<Episode>, clock: real, next: nat,
                                     budget: nat, rate: Window.PassResult)
    requires Pair(s, x, ep, clock, budget) && ShapeOf(ep, next) && OpEnabled(op, x)
    requires op.WakeBackoff? || op.CancelBackoff? || op.CancelAtLock? || op.WakeParked? || op.CancelParked?
    ensures LocalResult(s, x, ep, SessionStep(op, s, x, ep, clock, next, budget, rate), clock, next, budget)
  {
  }

  lemma {:induction false} LeavingStep(op: Op, s: SessionId, x: Session, ep: Option<Episode>, clock: real, next: nat,
                                     budget: nat, rate: Window.PassResult)
    requires Pair(s, x, ep, clock, budget) && ShapeOf(ep, next) && OpEnabled(op, x)
    requires op.CancelSleep? || op.Yield? || op.Orphan? || op.Leave?
    ensures LocalResult(s, x, ep, SessionStep(op, s, x, ep, clock, next, budget, rate), clock, next, budget)
  {
  }

  lemma {:induction false} AdmissionStep(op: Op, s: SessionId, x: Session, ep: Option<Episode>, clock: real, next: nat,
                                     budget: nat, rate: Window.PassResult)
    requires Pair(s, x, ep, clock, budget) && ShapeOf(ep, next) && OpEnabled(op, x)
    requires op.RatePass? || op.CancelRate? || op.GrantSlot? || op.CancelSlot?
    ensures LocalResult(s, x, ep, SessionStep(op, s, x, ep, clock, next, budget, rate), clock, next, budget)
  {
  }

  lemma {:induction false} ClaimStep(op: Op, s: SessionId, x: Session, ep: Option<Episode>, clock: real, next: nat,
                                     budget: nat, rate: Window.PassResult)
    requires Pair(s, x, ep, clock, budget) && ShapeOf(ep, next) && OpEnabled(op, x)
    requires op.Claim? || op.CancelGranted?
    ensures LocalResult(s, x, ep, SessionStep(op, s, x, ep, clock, next, budget, rate), clock, next, budget)
  {
  }

  lemma {:induction false} DropStep(op: Op, s: SessionId, x: Session, ep: Option<Episode>, clock: real, next: nat,
                                     budget: nat, rate: Window.PassResult)
    requires Pair(s, x, ep, clock, budget) && ShapeOf(ep, next) && OpEnabled(op, x)
    requires op.Drop? || op.CancelDrop? || op.Release?
    ensures LocalResult(s, x, ep, SessionStep(op, s, x, ep, clock, next, budget, rate), clock, next, budget)
  {
  }

  lemma {:induction false} ResolveStep(op: Op, s: SessionId, x: Session, ep: Option<Episode>, clock: real, next: nat,
                                     budget: nat, rate: Window.PassResult)
    requires Pair(s, x, ep, clock, budget) && ShapeOf(ep, next) && OpEnabled(op, x)
    requires op.Succeed? || op.Correct? || op.Reject? || op.AcceptedFail?
    ensures LocalResult(s, x, ep, SessionStep(op, s, x, ep, clock, next, budget, rate), clock, next, budget)
  {
  }

  /** Every step, local view: the stepping session and its episode stay right, and the
      other sessions are treated as `Frame` says. */
  lemma {:induction false} LocalStep(op: Op, s: SessionId, x: Session, ep: Option<Episode>, clock: real, next: nat,
                                     budget: nat, rate: Window.PassResult)
    requires Pair(s, x, ep, clock, budget) && ShapeOf(ep, next) && OpEnabled(op, x)
    ensures LocalResult(s, x, ep, SessionStep(op, s, x, ep, clock, next, budget, rate), clock, next, budget)
  {
    hide Pair, ShapeOf, LocalResult;
    match op
    case EnterGate => GateStep(s, x, ep, clock, next, budget);
    case Recheck => RecheckStep(s, x, ep, clock, next, budget);
    case Fail(error, delay, terminalDelay) => FailStep(s, x, ep, clock, next, budget, error, delay, terminalDelay);
    case Close(reopen) => CloseStep(s, x, ep, clock, next, budget, reopen);
    case RatePass | CancelRate | GrantSlot | CancelSlot => AdmissionStep(op, s, x, ep, clock, next, budget, rate);
    case Claim | CancelGranted => ClaimStep(op, s, x, ep, clock, next, budget, rate);
    case Drop | CancelDrop | Release => DropStep(op, s, x, ep, clock, next, budget, rate);
    case Succeed | Correct | Reject | AcceptedFail(_) => ResolveStep(op, s, x, ep, clock, next, budget, rate);
    case Pause | Reopen => PauseStep(op, s, x, ep, clock, next, budget, rate);
    case CancelSleep | Yield | Orphan | Leave => LeavingStep(op, s, x, ep, clock, next, budget, rate);
    case _ => WaitingStep(op, s, x, ep, clock, next, budget, rate);
  }

  /** Another session of the same model stays right. */
  lemma {:induction false} OtherSession(s: SessionId, t: SessionId, y: Session, ep: Option<Episode>, c: Change,
                                        clock: real, budget: nat)
    requires s != t && Pair(t, y, ep, clock, budget) && Frame(s, ep, c)
    ensures Pair(t, Affected(t, y, Waits(ep, t), c), c.ep, clock, budget)
  {
  }

  // ----- one step, globally -----

  ghost predicate Local(st: State, s: SessionId, c: Change) {
    s in st.sessions &&
    LocalResult(s, st.sessions[s], EpisodeOf(st, st.sessions[s].model), c, st.clock, st.nextGeneration, st.budget)
  }

  lemma {:induction false} ApplySessions(st: State, s: SessionId, c: Change)
    requires SessionsOk(st) && Local(st, s, c) && st.free + c.slots >= 0
    ensures SessionsOk(Apply(st, s, c))
  {
    hide Pair, Frame;
    var st' := Apply(st, s, c);
    var m := st.sessions[s].model;
    var ep := EpisodeOf(st, m);
    assert EpisodeOf(st', m) == c.ep;
    forall t | t in st'.sessions
      ensures Pair(t, st'.sessions[t], EpisodeOf(st', st'.sessions[t].model), st'.clock, st'.budget)
    {
      if t != s {
        var y := st.sessions[t];
        assert Pair(t, y, EpisodeOf(st, y.model), st.clock, st.budget);
        if y.model == m {
          OtherSession(s, t, y, ep, c, st.clock, st.budget);
        } else {
          StrangerSession(t, y, EpisodeOf(st, y.model), Waits(ep, t), c, st.clock, st.budget);
          assert EpisodeOf(st', y.model) == EpisodeOf(st, y.model);
        }
      }
    }
  }

  /** A session of another model at most gets notified, or an error recorded. */
  lemma {:induction false} StrangerSession(t: SessionId, y: Session, ep: Option<Episode>, waiting: bool, c: Change,
                                           clock: real, budget: nat)
    requires Pair(t, y, ep, clock, budget)
    ensures Pair(t, Affected(t, y, waiting, c), ep, clock, budget)
  {
  }

  lemma {:induction false} ApplyEpisodes(st: State, s: SessionId, c: Change)
    requires EpisodesOk(st) && GenerationsDistinct(st) && Local(st, s, c) && st.free + c.slots >= 0
    ensures EpisodesOk(Apply(st, s, c)) && GenerationsDistinct(Apply(st, s, c))
  {
    hide Pair;
    var st' := Apply(st, s, c);
    var m := st.sessions[s].model;
    var ep := EpisodeOf(st, m);
    forall t, n | Member(st, t, n) ensures Member(st', t, n) {
      assert st'.sessions[t].model == st.sessions[t].model;
    }
    forall n | n in st'.episodes
      ensures Shape(st'.episodes[n], st'.nextGeneration) && Members(st', n, st'.episodes[n])
    {
      if n == m {
        assert Member(st, s, m);
        var e := c.ep.value;
        assert ep.Some? ==> Members(st, m, ep.value);
        forall t | t in e.waiters ensures Member(st', t, m) {
          if t != s { assert Waits(ep, t) && Member(st, t, m); }
        }
      } else {
        assert Members(st, n, st.episodes[n]);
      }
    }
    forall n, k | n in st'.episodes && k in st'.episodes && n != k
      ensures st'.episodes[n].generation != st'.episodes[k].generation
    {
      if n != m { assert Shape(st.episodes[n], st.nextGeneration); }
      if k != m { assert Shape(st.episodes[k], st.nextGeneration); }
    }
  }

  lemma {:induction false} AffectedKeepsSlot(t: SessionId, y: Session, waiting: bool, c: Change)
    ensures HoldsSlot(Affected(t, y, waiting, c).pc) == HoldsSlot(y.pc)
  {
  }

  lemma {:induction false} ApplySlots(st: State, s: SessionId, c: Change)
    requires SlotsOk(st) && s in st.sessions && st.free + c.slots >= 0
    requires c.slots == HeldBy(st.sessions[s].pc) - HeldBy(c.x.pc)
    ensures SlotsOk(Apply(st, s, c))
  {
    var st' := Apply(st, s, c);
    var before, after := Holders(st.sessions), Holders(st'.sessions);
    forall t | t in st.sessions && t != s ensures t in after <==> t in before {
      AffectedKeepsSlot(t, st.sessions[t], Waits(EpisodeOf(st, st.sessions[s].model), t), c);
    }
    assert before - {s} == after - {s};
    assert s in before ==> |before| == |before - {s}| + 1;
    assert s in after ==> |after| == |after - {s}| + 1;
    assert s !in before ==> before - {s} == before;
    assert s !in after ==> after - {s} == after;
  }

  lemma {:induction false} RateKeepsWindow(st: State, s: SessionId, op: Op)
    requires Window.Inv(st.window, st.clock) && s in st.sessions && OpEnabled(op, st.sessions[s])
    ensures st.window.limit > 0 && Window.Inv(RateResult(st, s, op).0, st.clock)
  {
    hide Window.Inv;
    Window.InvPositive(st.window, st.clock);
    if op.RatePass? {
      var allowed := PermitIsCurrent(s, st.sessions[s].pc.permit, EpisodeOf(st, st.sessions[s].model));
      Window.StepKeepsInv(st.window, st.clock, Window.Pass(st.clock, st.clock, allowed));
    }
  }

  lemma {:induction false} DoKeepsInv(st: State, s: SessionId, op: Op)
    requires Inv(st) && Enabled(st, Do(s, op))
    ensures Inv(Step(st, Do(s, op)))
  {
    hide Pair, LocalResult, Window.Inv;
    var x := st.sessions[s];
    var ep := EpisodeOf(st, x.model);
    var c := ChangeOf(st, s, op);
    LocalStep(op, s, x, ep, st.clock, st.nextGeneration, st.budget, RateResult(st, s, op).1);
    RateKeepsWindow(st, s, op);
    var mid := st.(window := RateResult(st, s, op).0);
    LocalSlots(s, x, ep, c, st.clock, st.nextGeneration, st.budget);
    ApplySessions(mid, s, c);
    ApplyEpisodes(mid, s, c);
    ApplySlots(mid, s, c);
  }

  lemma {:induction false} LocalSlots(s: SessionId, x: Session, ep: Option<Episode>, c: Change, clock: real, next: nat, budget: nat)
    requires LocalResult(s, x, ep, c, clock, next, budget)
    ensures c.slots == HeldBy(x.pc) - HeldBy(c.x.pc)
  {
  }

  lemma {:induction false} LaterPair(s: SessionId, x: Session, ep: Option<Episode>, clock: real, later: real, budget: nat)
    requires Pair(s, x, ep, clock, budget) && clock <= later
    ensures Pair(s, x, ep, later, budget)
  {
  }

  lemma {:induction false} TickKeepsInv(st: State, to: real)
    requires Inv(st) && Enabled(st, Tick(to))
    ensures Inv(Step(st, Tick(to)))
  {
    hide Pair, Window.Inv;
    var st' := Step(st, Tick(to));
    forall s | s in st'.sessions
      ensures Pair(s, st'.sessions[s], EpisodeOf(st', st'.sessions[s].model), to, st'.budget)
    {
      assert Pair(s, st.sessions[s], EpisodeOf(st, st.sessions[s].model), st.clock, st.budget);
      assert EpisodeOf(st', st.sessions[s].model) == EpisodeOf(st, st.sessions[s].model);
      LaterPair(s, st.sessions[s], EpisodeOf(st, st.sessions[s].model), st.clock, to, st.budget);
    }
    forall m | m in st'.episodes ensures Members(st', m, st'.episodes[m]) {
      assert Members(st, m, st.episodes[m]);
      assert forall t | Member(st, t, m) :: Member(st', t, m);
    }
    Window.ClockAdvances(st.window, st.clock, to);
  }

  lemma {:induction false} StartKeepsInv(st: State, id: SessionId, model: Model)
    requires Inv(st) && Enabled(st, Start(id, model))
    ensures Inv(Step(st, Start(id, model)))
  {
    hide Window.Inv;
    var st' := Step(st, Start(id, model));
    assert Holders(st'.sessions) == Holders(st.sessions);
    forall t, n | Member(st, t, n) ensures Member(st', t, n) && t != id {
    }
    forall m | m in st'.episodes ensures Members(st', m, st'.episodes[m]) {
      assert Members(st, m, st.episodes[m]);
    }
    var ep := EpisodeOf(st, model);
    assert ep.Some? ==> Members(st, model, ep.value);
    forall t | ep.Some? && t in ep.value.waiters ensures t != id {
      assert Member(st, t, model);
    }
    forall s | s in st'.sessions
      ensures Pair(s, st'.sessions[s], EpisodeOf(st', st'.sessions[s].model), st'.clock, st'.budget)
    {
      if s != id {
        assert Pair(s, st.sessions[s], EpisodeOf(st, st.sessions[s].model), st.clock, st.budget);
      }
    }
  }

  /** A step that leaves sessions, episodes, clock and budget alone. */
  lemma {:induction false} SameSessions(st: State, st': State)
    requires Inv(st) && st' == st.(free := st'.free, hedges := st'.hedges, window := st'.window)
    requires st'.free + st'.hedges == st.free + st.hedges && Window.Inv(st'.window, st.clock)
    ensures Inv(st')
  {
    hide Pair, Window.Inv;
    forall s | s in st'.sessions
      ensures Pair(s, st'.sessions[s], EpisodeOf(st', st'.sessions[s].model), st'.clock, st'.budget)
    {
      assert Pair(s, st.sessions[s], EpisodeOf(st, st.sessions[s].model), st.clock, st.budget);
    }
    forall m | m in st'.episodes ensures Members(st', m, st'.episodes[m]) {
      assert Members(st, m, st.episodes[m]);
      assert forall t | Member(st, t, m) :: Member(st', t, m);
    }
  }

  lemma {:induction false} InvParts(st: State)
    requires Inv(st)
    ensures Window.Inv(st.window, st.clock)
  {
  }

  /** Every step keeps the invariant. */
  lemma {:induction false} StepKeepsInv(st: State, a: Action)
    requires Inv(st) && Enabled(st, a)
    ensures Inv(Step(st, a))
  {
    hide Inv, Window.Inv, ChangeOf, Apply;
    InvParts(st);
    match a
    case Tick(to) => TickKeepsInv(st, to);
    case Start(id, model) => StartKeepsInv(st, id, model);
    case Hedge =>
      Window.StepKeepsInv(st.window, st.clock, Window.Try(st.clock));
      SameSessions(st, Step(st, a));
    case Unhedge => SameSessions(st, Step(st, a));
    case Retune(limit) =>
      Window.RetuneKeepsInv(st.window, st.clock, if limit < 1 then 1 else limit);
      SameSessions(st, Step(st, a));
    case Do(s, op) => DoKeepsInv(st, s, op);
  }

  lemma {:induction false} InitialInv(clock: real, budget: nat, capacity: nat, limit: int, width: real)
    requires budget > 0 && limit > 0 && width > 0.0
    ensures Inv(InitialState(clock, budget, capacity, limit, width))
  {
    Window.FreshInv(limit, width, clock);
    assert Holders(InitialState(clock, budget, capacity, limit, width).sessions) == {};
  }
}
