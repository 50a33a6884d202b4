/** Provider admission as a step machine.  Every stretch of code between two awaits is
    one atomic step; each session carries an explicit program counter, and cancellation
    may land at any await.  The clock never goes back and is read once per step. */
module AdmissionMachine {
  import opened Common
  import Window = SlidingWindow

  type SessionId = nat
  type Model = Option<string>
  type Error = string

  /** A gate permit.  `grantedAt` records when a probe permit was handed out. */
  datatype Permit = Normal | Probe(generation: nat, grantedAt: real)

  /** An admitted attempt.  `again` says that its resolution told the driver to retry. */
  datatype Attempt = Attempt(permit: Permit, resolved: bool, accepted: bool, again: bool)

  /** `Left`: cancelled or failed between two attempts, outside the controller. */
  datatype Outcome = Returned | Raised | Cancelled | Left | RecoveryExhausted(error: Error)

  /** Where a session is suspended. */
  datatype Pc =
    | BackingOff                                        // in the per-session backoff sleep
    | AtLock                                            // past the terminal check, entering the condition
    | Parked(generation: nat, notified: bool)           // a follower waiting on the condition
    | ParkedLeader(notified: bool)                      // a leader waiting on the condition
    | Sleeping(generation: nat)                         // a leader sleeping until `readyAt`
    | AtRate(permit: Permit)                            // in the rate window
    | AtSlot(permit: Permit)                            // waiting for a concurrency slot
    | Granted(permit: Permit)                           // slot handed over, not yet running again
    | Dropping(permit: Permit, leaving: bool)           // about to abandon a probe permit
    | Holding(attempt: Attempt)                         // attempt open
    | Closing(permit: Permit)                           // closing an unresolved attempt
    | Pausing(accepted: bool)                           // attempt closed, the driver busy before it reopens
    | Yielding(generation: nat)                         // cancelled while sleeping as leader
    | Orphaning                                         // cancelled inside the gate
    | Ended(outcome: Outcome)

  datatype Session = Session(model: Model, started: nat, terminal: Option<Error>, notBefore: Option<real>, pc: Pc)

  datatype Episode = Episode(
    generation: nat,
    leader: Option<SessionId>,
    readyAt: real,
    lastError: Error,
    waiters: set<SessionId>,
    probeActive: bool,
    terminalUntil: Option<real>)

  datatype State = State(
    clock: real,
    budget: nat,
    capacity: nat,
    free: nat,
    hedges: nat,
    nextGeneration: nat,
    episodes: map<Model, Episode>,
    sessions: map<SessionId, Session>,
    window: Window.Window)

  /** What a session can do next, including being cancelled where it is suspended. */
  datatype Op =
    | WakeBackoff | CancelBackoff
    | EnterGate | CancelAtLock
    | WakeParked | CancelParked
    | Recheck | CancelSleep
    | Yield | Orphan
    | RatePass | CancelRate
    | GrantSlot | CancelSlot
    | Claim | CancelGranted
    | Drop | CancelDrop
    | Succeed | Correct | Reject
    | Fail(error: Error, delay: real, terminalDelay: real)
    | AcceptedFail(backoff: real)
    | Close(reopen: bool) | Release
    | Pause | Reopen | Leave

  datatype Action =
    | Tick(to: real)
    | Start(id: SessionId, model: Model)
    | Hedge | Unhedge
    | Retune(limit: int)
    | Do(s: SessionId, op: Op)

  /** The effect of one session step: the session's new record, its model's episode
      afterwards, whether everyone waiting on the condition is woken, the error handed to
      the episode's waiters if it was exhausted, whether a generation was used up, and how
      many slots were released (negative: taken). */
  datatype Change = Change(x: Session, ep: Option<Episode>, notify: bool, doom: Option<Error>, spent: bool, slots: int)

  function Quiet(x: Session, ep: Option<Episode>): Change {
    Change(x, ep, false, None, false, 0)
  }

  // ----- the code, step by step -----

  function InitialState(clock: real, budget: nat, capacity: nat, limit: int, width: real): State {
    State(clock, budget, capacity, capacity, 0, 1, map[], map[], Window.Fresh(limit, width))
  }

  /** The top of the gate loop: a recorded terminal error is raised there. */
  function AtTop(x: Session): Session {
    if x.terminal.Some? then x.(pc := Ended(RecoveryExhausted(x.terminal.value))) else x.(pc := AtLock)
  }

  function Opened(generation: nat, leader: Option<SessionId>, readyAt: real, lastError: Error): Episode {
    Episode(generation, leader, readyAt, lastError, {}, false, None)
  }

  predicate PermitIsCurrent(s: SessionId, permit: Permit, ep: Option<Episode>) {
    match permit
    case Normal => ep.None?
    case Probe(generation, _) =>
      && ep.Some? && ep.value.generation == generation && ep.value.terminalUntil.None?
      && ep.value.leader == Some(s) && ep.value.probeActive
  }

  predicate MatchesProbe(s: SessionId, permit: Permit, ep: Option<Episode>) {
    && permit.Probe? && ep.Some? && ep.value.generation == permit.generation
    && ep.value.leader == Some(s) && ep.value.probeActive
  }

  /** Giving a probe permit back, as abandoning a permit or an attempt does. */
  function AbandonProbe(s: SessionId, x: Session, permit: Permit, ep: Option<Episode>, clock: real): Change {
    if MatchesProbe(s, permit, ep)
    then Quiet(x, Some(ep.value.(leader := None, probeActive := false, readyAt := clock))).(notify := true)
    else Quiet(x, ep)
  }

  /** One pass of the gate under the condition's lock. */
  function GatePass(s: SessionId, x: Session, ep: Option<Episode>, clock: real, next: nat): Change {
    if ep.None? then Quiet(x.(pc := AtRate(Normal)), ep)
    else if ep.value.terminalUntil.Some? && clock < ep.value.terminalUntil.value
    then Quiet(x.(pc := Ended(RecoveryExhausted(ep.value.lastError))), ep)
    else
      var restart := ep.value.terminalUntil.Some?;
      var e := if restart then Opened(next, Some(s), clock, ep.value.lastError) else ep.value;
      var e := if e.leader.None? then e.(leader := Some(s), waiters := e.waiters - {s}) else e;
      var c :=
        if e.leader != Some(s) then Quiet(x.(pc := Parked(e.generation, false)), Some(e.(waiters := e.waiters + {s})))
        else if e.probeActive then Quiet(x.(pc := ParkedLeader(false)), Some(e))
        else if e.readyAt <= clock then Quiet(x.(pc := AtRate(Probe(e.generation, clock))), Some(e.(probeActive := true)))
        else Quiet(x.(pc := Sleeping(e.generation)), Some(e));
      c.(spent := restart)
  }

  /** A leader back from its sleep. */
  function RecheckPass(s: SessionId, x: Session, ep: Option<Episode>, clock: real): Change
    requires x.pc.Sleeping?
  {
    if ep.Some? && ep.value.generation == x.pc.generation && ep.value.terminalUntil.None?
       && ep.value.leader == Some(s) && !ep.value.probeActive && ep.value.readyAt <= clock
    then Quiet(x.(pc := AtRate(Probe(ep.value.generation, clock))), Some(ep.value.(probeActive := true)))
    else Quiet(AtTop(x), ep)
  }

  /** A retryable failure of an attempt that has not been resolved. */
  function FailPass(s: SessionId, x: Session, ep: Option<Episode>, clock: real, next: nat, budget: nat,
                    error: Error, delay: real, terminalDelay: real): Change
    requires x.pc.Holding?
  {
    var a := x.pc.attempt;
    var canRetry := x.started < budget;
    var x' := x.(pc := Holding(a.(resolved := true, again := canRetry)));
    var matching := MatchesProbe(s, a.permit, ep);
    if canRetry then
      if ep.None? then Quiet(x', Some(Opened(next, Some(s), clock + delay, error))).(notify := true, spent := true)
      else if matching then
        Quiet(x', Some(ep.value.(lastError := error, probeActive := false, readyAt := clock + delay))).(notify := true)
      else if ep.value.terminalUntil.Some? then
        Quiet(x'.(terminal := Some(ep.value.lastError)), ep).(notify := true)
      else Quiet(x', Some(ep.value.(waiters := ep.value.waiters + {s}))).(notify := true)
    else if ep.None? || matching then
      var e := if ep.None? then Opened(next, None, clock, error) else ep.value;
      Change(x', Some(e.(lastError := error, leader := None, probeActive := false,
                         terminalUntil := Some(clock + terminalDelay), waiters := {})),
             true, Some(error), ep.None?, 0)
    else Quiet(x', ep)
  }

  /** The head of `open_attempt`, for a driver that tries again. */
  function Reopened(x: Session, budget: nat): Session {
    if x.started >= budget then x.(pc := Ended(Raised))
    else if x.notBefore.Some? then x.(pc := BackingOff)
    else AtTop(x)
  }

  /** Closing a held attempt, and what the driver does next: retry, or end. */
  function ClosePass(x: Session, ep: Option<Episode>, budget: nat, reopen: bool): Change
    requires x.pc.Holding?
  {
    var a := x.pc.attempt;
    if !a.resolved then Quiet(x.(pc := Closing(a.permit)), ep)
    else
      var x' := if reopen then Reopened(x, budget) else x.(pc := Ended(if a.accepted then Returned else Raised));
      Quiet(x', ep).(slots := 1)
  }

  function SessionStep(op: Op, s: SessionId, x: Session, ep: Option<Episode>, clock: real, next: nat, budget: nat,
                       rate: Window.PassResult): Change
    requires OpEnabled(op, x)
  {
    match op
    case WakeBackoff =>
      if x.notBefore.Some? && clock < x.notBefore.value then Quiet(x, ep)
      else Quiet(AtTop(x.(notBefore := None)), ep)
    case CancelBackoff => Quiet(x.(pc := Ended(Cancelled)), ep)
    case EnterGate => GatePass(s, x, ep, clock, next)
    case CancelAtLock => Quiet(x.(pc := Orphaning), ep)
    case WakeParked => Quiet(AtTop(x), ep)
    case CancelParked =>
      Quiet(x.(pc := Orphaning),
            if x.pc.Parked? && ep.Some? && ep.value.generation == x.pc.generation
            then Some(ep.value.(waiters := ep.value.waiters - {s})) else ep)
    case Recheck => RecheckPass(s, x, ep, clock)
    case CancelSleep => Quiet(x.(pc := Yielding(x.pc.generation)), ep)
    case Yield =>
      var x' := x.(pc := Orphaning);
      if ep.Some? && ep.value.generation == x.pc.generation && ep.value.leader == Some(s) && !ep.value.probeActive
      then Quiet(x', Some(ep.value.(leader := None))).(notify := true)
      else Quiet(x', ep)
    case Orphan =>
      var x' := x.(pc := Ended(Cancelled));
      if ep.Some? && ep.value.leader == Some(s)
      then Quiet(x', Some(ep.value.(leader := None, probeActive := false, readyAt := clock))).(notify := true)
      else Quiet(x', ep)
    case RatePass =>
      match rate {
        case Admitted => Quiet(x.(pc := AtSlot(x.pc.permit)), ep)
        case Refused => Quiet(x.(pc := Dropping(x.pc.permit, false)), ep)
        case Retry(_) => Quiet(x, ep)
      }
    case CancelRate => Quiet(x.(pc := Dropping(x.pc.permit, true)), ep)
    case GrantSlot => Quiet(x.(pc := Granted(x.pc.permit)), ep).(slots := -1)
    case CancelSlot => Quiet(x.(pc := Dropping(x.pc.permit, true)), ep)
    case Claim =>
      if PermitIsCurrent(s, x.pc.permit, ep)
      then Quiet(x.(started := x.started + 1, pc := Holding(Attempt(x.pc.permit, false, false, false))), ep)
      else Quiet(x.(pc := Dropping(x.pc.permit, false)), ep).(slots := 1)
    case CancelGranted => Quiet(x.(pc := Dropping(x.pc.permit, true)), ep).(slots := 1)
    case Drop =>
      AbandonProbe(s, if x.pc.leaving then x.(pc := Ended(Cancelled)) else AtTop(x), x.pc.permit, ep, clock)
    case CancelDrop => Quiet(x.(pc := Dropping(x.pc.permit, true)), ep)
    case Succeed =>
      var a := x.pc.attempt;
      var x' := x.(pc := Holding(a.(resolved := true, accepted := true)));
      if MatchesProbe(s, a.permit, ep) then Quiet(x', None).(notify := true) else Quiet(x', ep)
    case Correct =>
      var a := x.pc.attempt;
      var x' := x.(pc := Holding(a.(resolved := true, again := true)));
      if MatchesProbe(s, a.permit, ep)
      then Quiet(x', Some(ep.value.(probeActive := false, readyAt := clock))).(notify := true)
      else Quiet(x', ep)
    case Reject =>
      var a := x.pc.attempt;
      var x' := x.(pc := Holding(a.(resolved := true)));
      if MatchesProbe(s, a.permit, ep) then Quiet(x', None).(notify := true) else Quiet(x', ep)
    case Fail(error, delay, terminalDelay) => FailPass(s, x, ep, clock, next, budget, error, delay, terminalDelay)
    case AcceptedFail(backoff) =>
      if x.started < budget
      then Quiet(x.(notBefore := Some(clock + backoff), pc := Holding(x.pc.attempt.(again := true))), ep)
      else Quiet(x, ep)
    case Close(reopen) => ClosePass(x, ep, budget, reopen)
    case Release => AbandonProbe(s, x.(pc := Ended(Cancelled)), x.pc.permit, ep, clock).(slots := 1)
    case Pause => Quiet(x.(pc := Pausing(x.pc.attempt.accepted)), ep).(slots := 1)
    case Reopen => Quiet(Reopened(x, budget), ep)
    case Leave => Quiet(x.(pc := Ended(Left)), ep)
  }

  /** Where each operation may happen.  A driver told to retry an attempt that was never
      accepted closes it and reopens, at once or after work of its own, which may fail. */
  predicate OpEnabled(op: Op, x: Session) {
    match op
    case WakeBackoff | CancelBackoff => x.pc.BackingOff?
    case EnterGate | CancelAtLock => x.pc.AtLock?
    case WakeParked => (x.pc.Parked? || x.pc.ParkedLeader?) && x.pc.notified
    case CancelParked => x.pc.Parked? || x.pc.ParkedLeader?
    case Recheck | CancelSleep => x.pc.Sleeping?
    case Yield => x.pc.Yielding?
    case Orphan => x.pc.Orphaning?
    case RatePass | CancelRate => x.pc.AtRate?
    case GrantSlot | CancelSlot => x.pc.AtSlot?
    case Claim | CancelGranted => x.pc.Granted?
    case Drop => x.pc.Dropping?
    case CancelDrop => x.pc.Dropping? && !x.pc.leaving
    case Succeed | Correct | Reject => x.pc.Holding? && !x.pc.attempt.resolved
    case Fail(_, delay, terminalDelay) =>
      x.pc.Holding? && !x.pc.attempt.resolved && delay >= 0.0 && terminalDelay >= 0.0
    case AcceptedFail(backoff) => x.pc.Holding? && x.pc.attempt.accepted && backoff >= 0.0
    case Close(reopen) =>
      x.pc.Holding? && var a := x.pc.attempt;
      if a.resolved then (reopen ==> a.again) && (a.again && !a.accepted ==> reopen) else !reopen
    case Release => x.pc.Closing?
    case Pause => x.pc.Holding? && x.pc.attempt.resolved && x.pc.attempt.again
    case Reopen | Leave => x.pc.Pausing?
  }

  function EpisodeOf(st: State, m: Model): Option<Episode> {
    if m in st.episodes then Some(st.episodes[m]) else None
  }

  function PutEpisode(episodes: map<Model, Episode>, m: Model, ep: Option<Episode>): map<Model, Episode> {
    if ep.Some? then episodes[m := ep.value] else episodes - {m}
  }

  /** How a step of another session of the same model shows in a session's record. */
  function Affected(t: SessionId, y: Session, waiting: bool, c: Change): Session {
    var y := if c.doom.Some? && waiting then y.(terminal := c.doom) else y;
    if c.notify && (y.pc.Parked? || y.pc.ParkedLeader?) then y.(pc := y.pc.(notified := true)) else y
  }

  predicate Waits(ep: Option<Episode>, t: SessionId) {
    ep.Some? && t in ep.value.waiters
  }

  function Apply(st: State, s: SessionId, c: Change): State
    requires s in st.sessions && st.free + c.slots >= 0
  {
    var m := st.sessions[s].model;
    var ep := EpisodeOf(st, m);
    st.(sessions := map t | t in st.sessions :: if t == s then c.x else Affected(t, st.sessions[t], Waits(ep, t), c),
        episodes := PutEpisode(st.episodes, m, c.ep),
        nextGeneration := st.nextGeneration + if c.spent then 1 else 0,
        free := st.free + c.slots)
  }

  function RateResult(st: State, s: SessionId, op: Op): (Window.Window, Window.PassResult)
    requires s in st.sessions && OpEnabled(op, st.sessions[s]) && st.window.limit > 0
  {
    if op.RatePass? then
      Window.PassAt(st.window, st.clock, st.clock,
                    PermitIsCurrent(s, st.sessions[s].pc.permit, EpisodeOf(st, st.sessions[s].model)))
    else (st.window, Window.Refused)
  }

  function ChangeOf(st: State, s: SessionId, op: Op): Change
    requires s in st.sessions && OpEnabled(op, st.sessions[s]) && st.window.limit > 0
  {
    var x := st.sessions[s];
    SessionStep(op, s, x, EpisodeOf(st, x.model), st.clock, st.nextGeneration, st.budget, RateResult(st, s, op).1)
  }

  ghost predicate Enabled(st: State, a: Action) {
    st.window.limit > 0 &&
    match a
    case Tick(to) => st.clock <= to
    case Start(id, _) => id !in st.sessions
    case Hedge => st.free > 0
    case Unhedge => st.hedges > 0
    case Retune(_) => true
    case Do(s, op) => s in st.sessions && OpEnabled(op, st.sessions[s]) && (op.GrantSlot? ==> st.free > 0)
  }

  function Step(st: State, a: Action): State
    requires Enabled(st, a)
  {
    match a
    case Tick(to) => st.(clock := to)
    case Start(id, model) => st.(sessions := st.sessions[id := AtTop(Session(model, 0, None, None, AtLock))])
    case Hedge =>
      var (w, ok) := Window.TryAcquireAt(st.window, st.clock);
      if ok then st.(window := w, free := st.free - 1, hedges := st.hedges + 1) else st.(window := w)
    case Unhedge => st.(free := st.free + 1, hedges := st.hedges - 1)
    case Retune(limit) => st.(window := st.window.(limit := if limit < 1 then 1 else limit))
    case Do(s, op) =>
      var c := ChangeOf(st, s, op);
      var st' := st.(window := RateResult(st, s, op).0);
      Apply(st', s, c)
  }
}
