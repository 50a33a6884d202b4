/** Handoffs, cancels and discards racing for pending voice notes.  Each lock section is
    one atomic step; a cancel protects the claim it runs under before it asks for the lock,
    and after its section drains the handoff tasks of the claims it took. */
module VoiceConcurrency {
  import opened Common
  import opened VoiceRegistry

  datatype Phase = Protected | Draining | Over

  /** One cancel in progress.  `current` is the claim whose handoff callback it runs in. */
  datatype Cancel = Cancel(current: Option<Claim>, target: Target, phase: Phase, taken: set<Claim>, stamp: nat)

  datatype Report = Completed | Cancelled | Discarded

  /** `tasks` are the handoff tasks alive, `callers` the handoffs that have not yet finished
      ownership, `closed` the claims whose ownership has ended, `reports` what was returned. */
  datatype World = World(
    reg: Registry,
    tasks: set<Claim>,
    callers: set<Claim>,
    cancels: map<nat, Cancel>,
    discards: map<nat, Claim>,
    closed: set<Claim>,
    reports: multiset<(Claim, Report)>,
    steps: nat)

  datatype Action =
    | DoReserve(scope: Scope, voiceId: Id)
    | DoBind(c: Claim, statusId: Id)
    | DoBegin(c: Claim)
    | TaskEnds(c: Claim)
    | FinishHandoff(c: Claim, normal: bool)
    | BeginCancel(op: nat, current: Option<Claim>, target: Target)
    | AbortCancel(op: nat)
    | CancelSection(op: nat)
    | FinishCancel(op: nat, returned: bool)
    | BeginDiscard(id: nat, c: Claim)
    | FinishDiscard(id: nat, returned: bool)

  function InitialWorld(): World {
    World(Empty(), {}, {}, map[], map[], {}, multiset{}, 0)
  }

  ghost predicate Enabled(w: World, a: Action) {
    match a
    case DoReserve(_, _) | DoBind(_, _) | DoBegin(_) => true
    case TaskEnds(c) => c in w.tasks
    case FinishHandoff(c, _) => c in w.callers && c !in w.tasks
    case BeginCancel(op, _, _) => op !in w.cancels
    case AbortCancel(op) => op in w.cancels && w.cancels[op].phase.Protected?
    case CancelSection(op) => op in w.cancels && w.cancels[op].phase.Protected?
    case FinishCancel(op, _) => op in w.cancels && w.cancels[op].phase.Draining? && w.cancels[op].taken !! w.tasks
    case BeginDiscard(id, _) => id !in w.discards
    case FinishDiscard(id, _) => id in w.discards
  }

  ghost function CancelReports(taken: set<Claim>): multiset<(Claim, Report)> {
    multiset(set c | c in taken :: (c, Cancelled))
  }

  ghost function Step(w: World, a: Action): World
    requires Enabled(w, a)
  {
    var w := w.(steps := w.steps + 1);
    match a
    case DoReserve(scope, voiceId) => w.(reg := Reserve(w.reg, scope, voiceId).0)
    case DoBind(c, statusId) => w.(reg := BindStatus(w.reg, c, statusId).0)
    case DoBegin(c) =>
      var (r, ok) := BeginHandoff(w.reg, c);
      if ok then w.(reg := r, tasks := w.tasks + {c}, callers := w.callers + {c}) else w
    case TaskEnds(c) => w.(tasks := w.tasks - {c})
    case FinishHandoff(c, normal) =>
      var (r, ok) := TakeIfOwned(w.reg, c);
      var w := w.(reg := r, callers := w.callers - {c});
      if !ok then w
      else w.(closed := w.closed + {c}, reports := w.reports + if normal then multiset{(c, Completed)} else multiset{})
    case BeginCancel(op, current, target) =>
      w.(reg := Protect(w.reg, current), cancels := w.cancels[op := Cancel(current, target, Protected, {}, 0)])
    case AbortCancel(op) => EndCancel(w, op)
    case CancelSection(op) =>
      var o := w.cancels[op];
      var taken := Taken(w.reg, o.target, o.current);
      w.(reg := RemoveAll(w.reg, taken), cancels := w.cancels[op := o.(phase := Draining, taken := taken, stamp := w.steps)])
    case FinishCancel(op, returned) =>
      EndCancel(w, op).(reports := w.reports + if returned then CancelReports(w.cancels[op].taken) else multiset{})
    case BeginDiscard(id, c) =>
      var (r, ok) := TakeIfOwned(w.reg, c);
      if ok then w.(reg := r, discards := w.discards[id := c]) else w
    case FinishDiscard(id, returned) =>
      w.(discards := w.discards - {id}, closed := w.closed + {w.discards[id]},
         reports := w.reports + if returned then multiset{(w.discards[id], Discarded)} else multiset{})
  }

  /** The end of a cancel, on every path: the caller's protection is released. */
  ghost function EndCancel(w: World, op: nat): World
    requires op in w.cancels
  {
    var o := w.cancels[op];
    w.(reg := Unprotect(w.reg, o.current), cancels := w.cancels[op := o.(phase := Over, taken := {})],
       closed := w.closed + o.taken)
  }

  // ----- exclusive ownership -----

  /** A claim whose ownership has ended, or is held outside the registry, stays outside. */
  ghost predicate Gone(w: World, c: Claim) {
    c !in w.reg.entries && c.serial < w.reg.issued
  }

  ghost predicate Took(w: World, op: nat, c: Claim) {
    op in w.cancels && c in w.cancels[op].taken
  }

  /** A claim is registered, taken by one cancel, taken by one discard, or closed: never two. */
  ghost predicate Exclusive(w: World) {
    && (forall o, c | Took(w, o, c) :: Gone(w, c) && c !in w.closed)
    && (forall i | i in w.discards :: Gone(w, w.discards[i]) && w.discards[i] !in w.closed)
    && (forall c | c in w.closed :: Gone(w, c))
    && (forall o, p, c | Took(w, o, c) && Took(w, p, c) :: o == p)
    && (forall i, j | i in w.discards && j in w.discards && w.discards[i] == w.discards[j] :: i == j)
    && (forall o, i | i in w.discards :: !Took(w, o, w.discards[i]))
  }

  /** A step that takes no claim by a cancel. */
  lemma {:induction false} NothingTaken(w: World, w': World)
    requires Exclusive(w) && forall o, c | Took(w', o, c) :: Took(w, o, c)
    requires w'.reg.issued >= w.reg.issued && forall c | c in w'.reg.entries :: c in w.reg.entries || c.serial >= w.reg.issued
    requires w'.closed == w.closed && w'.discards == w.discards
    ensures Exclusive(w')
  {
    forall c | Gone(w, c) ensures Gone(w', c) {
    }
  }

  ghost function ReportCount(w: World, c: Claim): nat {
    w.reports[(c, Completed)] + w.reports[(c, Cancelled)] + w.reports[(c, Discarded)]
  }

  ghost predicate ReportedOnce(w: World) {
    forall c :: ReportCount(w, c) <= if c in w.closed then 1 else 0
  }

  ghost predicate OwnershipInv(w: World) {
    Inv(w.reg) && Exclusive(w) && ReportedOnce(w)
  }

  lemma {:induction false} ReportsAdded(w: World, w': World, added: set<Claim>, kind: Report)
    requires ReportedOnce(w) && added !! w.closed
    requires w'.closed == w.closed + added
    requires w'.reports == w.reports || w'.reports == w.reports + multiset(set c | c in added :: (c, kind))
    ensures ReportedOnce(w')
  {
    var more := set c | c in added :: (c, kind);
    forall c ensures ReportCount(w', c) <= if c in w'.closed then 1 else 0 {
      assert ReportCount(w, c) <= if c in w.closed then 1 else 0;
      assert (c, kind) in more <==> c in added;
      assert forall k: Report | k != kind :: (c, k) !in more;
      assert forall k: Report :: multiset(more)[(c, k)] == if (c, k) in more then 1 else 0;
    }
  }

  lemma {:induction false} OneReportAdded(w: World, w': World, c: Claim, kind: Report)
    requires ReportedOnce(w) && c !in w.closed && w'.closed == w.closed + {c}
    requires w'.reports == w.reports || w'.reports == w.reports + multiset{(c, kind)}
    ensures ReportedOnce(w')
  {
    assert (set d | d in {c} :: (d, kind)) == {(c, kind)};
    assert multiset({(c, kind)}) == multiset{(c, kind)};
    ReportsAdded(w, w', {c}, kind);
  }

  lemma {:induction false} NoReportAdded(w: World, w': World)
    requires ReportedOnce(w) && w'.closed == w.closed && w'.reports == w.reports
    ensures ReportedOnce(w')
  {
    assert forall c :: ReportCount(w', c) == ReportCount(w, c);
  }

  lemma {:induction false} RegisteredIsOld(r: Registry, c: Claim)
    requires Inv(r) && c in r.entries
    ensures c.serial < r.issued
  {
  }

  lemma {:induction false} OwnershipRegistryStep(w: World, a: Action)
    requires OwnershipInv(w) && Enabled(w, a)
    requires a.DoReserve? || a.DoBind? || a.DoBegin? || a.TaskEnds?
    ensures OwnershipInv(Step(w, a))
  {
    hide Inv, ReportedOnce;
    NoReportAdded(w, Step(w, a));
    forall o, c | Took(Step(w, a), o, c) ensures Took(w, o, c) {
    }
    match a {
      case DoReserve(scope, voiceId) => ReserveKeeps(w.reg, scope, voiceId);
      case DoBind(c, statusId) => BindKeeps(w.reg, c, statusId);
      case DoBegin(c) => BeginHandoffKeeps(w.reg, c);
      case TaskEnds(_) =>
    }
    NothingTaken(w, Step(w, a));
  }

  lemma {:induction false} OwnershipFinishHandoff(w: World, c: Claim, normal: bool)
    requires OwnershipInv(w) && Enabled(w, FinishHandoff(c, normal))
    ensures OwnershipInv(Step(w, FinishHandoff(c, normal)))
  {
    hide Inv, ReportedOnce;
    var w' := Step(w, FinishHandoff(c, normal));
    TakeKeeps(w.reg, c);
    forall o, d | Took(w', o, d) ensures Took(w, o, d) {
    }
    forall d | Gone(w, d) ensures Gone(w', d) {
    }
    if c in w.reg.entries {
      RegisteredIsOld(w.reg, c);
      OneReportAdded(w, w', c, Completed);
    } else {
      NoReportAdded(w, w');
    }
  }

  lemma {:induction false} OwnershipBeginCancel(w: World, op: nat, current: Option<Claim>, target: Target)
    requires OwnershipInv(w) && Enabled(w, BeginCancel(op, current, target))
    ensures OwnershipInv(Step(w, BeginCancel(op, current, target)))
  {
    hide Inv, ReportedOnce;
    var w' := Step(w, BeginCancel(op, current, target));
    ProtectKeeps(w.reg, current);
    NoReportAdded(w, w');
    forall o, d | Took(w', o, d) ensures Took(w, o, d) {
    }
    NothingTaken(w, w');
  }

  lemma {:induction false} OwnershipEndCancel(w: World, a: Action)
    requires OwnershipInv(w) && Enabled(w, a) && (a.AbortCancel? || a.FinishCancel?)
    ensures OwnershipInv(Step(w, a))
  {
    hide Inv, ReportedOnce;
    var w' := Step(w, a);
    var o := w.cancels[a.op];
    ProtectKeeps(w.reg, o.current);
    forall c | c in o.taken ensures Took(w, a.op, c) {
    }
    forall p, d | Took(w', p, d) ensures Took(w, p, d) && d !in o.taken {
    }
    forall d | Gone(w, d) ensures Gone(w', d) {
    }
    ReportsAdded(w, w', o.taken, Cancelled);
  }

  lemma {:induction false} OwnershipCancelSection(w: World, op: nat)
    requires OwnershipInv(w) && Enabled(w, CancelSection(op)) && w.cancels[op].taken == {}
    ensures OwnershipInv(Step(w, CancelSection(op)))
  {
    hide Inv, ReportedOnce;
    var o := w.cancels[op];
    var taken := Taken(w.reg, o.target, o.current);
    RemoveAllKeeps(w.reg, taken);
    forall c | c in taken ensures c in w.reg.entries && c.serial < w.reg.issued {
      TakenAreUnprotected(w.reg, o.target, o.current, c);
      RegisteredIsOld(w.reg, c);
    }
    var w' := Step(w, CancelSection(op));
    forall p, d | Took(w', p, d) ensures if p == op then d in taken else Took(w, p, d) {
    }
    forall d | Gone(w, d) || d in taken ensures Gone(w', d) {
    }
    NoReportAdded(w, w');
  }

  lemma {:induction false} OwnershipBeginDiscard(w: World, id: nat, c: Claim)
    requires OwnershipInv(w) && Enabled(w, BeginDiscard(id, c))
    ensures OwnershipInv(Step(w, BeginDiscard(id, c)))
  {
    hide Inv, ReportedOnce;
    TakeKeeps(w.reg, c);
    var w' := Step(w, BeginDiscard(id, c));
    if c in w.reg.entries { RegisteredIsOld(w.reg, c); }
    forall o, d | Took(w', o, d) ensures Took(w, o, d) {
    }
    forall d | Gone(w, d) ensures Gone(w', d) {
    }
    NoReportAdded(w, w');
  }

  lemma {:induction false} OwnershipFinishDiscard(w: World, id: nat, returned: bool)
    requires OwnershipInv(w) && Enabled(w, FinishDiscard(id, returned))
    ensures OwnershipInv(Step(w, FinishDiscard(id, returned)))
  {
    hide Inv, ReportedOnce;
    var w' := Step(w, FinishDiscard(id, returned));
    forall o, d | Took(w', o, d) ensures Took(w, o, d) {
    }
    forall d | Gone(w, d) ensures Gone(w', d) {
    }
    OneReportAdded(w, w', w.discards[id], Discarded);
  }

  // ----- protection and the wait-for graph -----

  ghost function Live(w: World, c: Claim): set<nat> {
    set op | op in w.cancels && !w.cancels[op].phase.Over? && w.cancels[op].current == Some(c)
  }

  /** The protection count of a claim is the number of cancels in progress inside it. */
  ghost predicate ProtectionCounts(w: World) {
    && (forall c | c in w.reg.active :: w.reg.active[c] > 0)
    && (forall c :: ActiveCount(w.reg, c) == |Live(w, c)|)
  }

  /** A cancel that runs inside claim `a` is draining the handoff task of `b`. */
  ghost predicate Drains(w: World, op: nat, b: Claim) {
    Took(w, op, b) && w.cancels[op].phase.Draining? && b in w.tasks
  }

  ghost predicate WaitsFor(w: World, a: Claim, b: Claim) {
    exists op :: Drains(w, op, b) && w.cancels[op].current == Some(a)
  }

  /** A cancel inside a claim being drained entered its section after the draining one. */
  ghost predicate Ordered(w: World) {
    && (forall op | op in w.cancels :: w.cancels[op].stamp <= w.steps && (w.cancels[op].phase.Protected? ==> w.cancels[op].taken == {}))
    && (forall o, p, b | Drains(w, o, b) && p in w.cancels && w.cancels[p].phase.Draining? && w.cancels[p].current == Some(b) ::
          w.cancels[o].stamp < w.cancels[p].stamp)
  }

  ghost predicate WaitInv(w: World) {
    OwnershipInv(w) && ProtectionCounts(w) && Ordered(w)
  }

  lemma {:induction false} SameProtection(w: World, w': World)
    requires ProtectionCounts(w) && w'.reg.active == w.reg.active && w'.cancels.Keys == w.cancels.Keys
    requires forall op | op in w.cancels :: w'.cancels[op].current == w.cancels[op].current
                                            && w'.cancels[op].phase.Over? == w.cancels[op].phase.Over?
    ensures ProtectionCounts(w')
  {
    forall c ensures ActiveCount(w'.reg, c) == |Live(w', c)| {
      assert Live(w', c) == Live(w, c);
    }
  }

  lemma {:induction false} BeginCounts(w: World, op: nat, current: Option<Claim>, target: Target)
    requires ProtectionCounts(w) && Enabled(w, BeginCancel(op, current, target))
    ensures ProtectionCounts(Step(w, BeginCancel(op, current, target)))
  {
    var w' := Step(w, BeginCancel(op, current, target));
    forall c ensures ActiveCount(w'.reg, c) == |Live(w', c)| {
      assert ActiveCount(w.reg, c) == |Live(w, c)|;
      if current == Some(c) {
        assert Live(w', c) == Live(w, c) + {op};
      } else {
        assert Live(w', c) == Live(w, c);
      }
    }
  }

  lemma {:induction false} EndCount(w: World, a: Action, c: Claim)
    requires Enabled(w, a) && (a.AbortCancel? || a.FinishCancel?)
    requires ActiveCount(w.reg, c) == |Live(w, c)| && (forall b | b in w.reg.active :: w.reg.active[b] > 0)
    ensures ActiveCount(Step(w, a).reg, c) == |Live(Step(w, a), c)|
  {
    var w' := Step(w, a);
    if w.cancels[a.op].current == Some(c) {
      assert a.op in Live(w, c);
      assert Live(w', c) == Live(w, c) - {a.op};
    } else {
      assert Live(w', c) == Live(w, c);
    }
  }

  lemma {:induction false} EndCounts(w: World, a: Action)
    requires ProtectionCounts(w) && Enabled(w, a) && (a.AbortCancel? || a.FinishCancel?)
    ensures ProtectionCounts(Step(w, a))
  {
    var w' := Step(w, a);
    hide Live;
    forall c ensures ActiveCount(w'.reg, c) == |Live(w', c)| {
      EndCount(w, a, c);
    }
  }

  lemma {:induction false} RegistryLeavesProtection(w: World, a: Action)
    requires OwnershipInv(w) && Enabled(w, a)
    requires !a.BeginCancel? && !a.AbortCancel? && !a.FinishCancel?
    ensures Step(w, a).reg.active == w.reg.active
  {
  }

  /** The key step: a cancel takes only claims in which no cancel is in progress. */
  lemma {:induction false} TakenHaveNoCancels(w: World, op: nat, b: Claim)
    requires WaitInv(w) && Enabled(w, CancelSection(op))
    requires b in Taken(w.reg, w.cancels[op].target, w.cancels[op].current)
    ensures b in w.reg.entries
    ensures forall p | p in w.cancels && w.cancels[p].current == Some(b) :: w.cancels[p].phase.Over?
    ensures w.cancels[op].current != Some(b)
  {
    TakenAreUnprotected(w.reg, w.cancels[op].target, w.cancels[op].current, b);
    assert ActiveCount(w.reg, b) == |Live(w, b)|;
    forall p | p in w.cancels && w.cancels[p].current == Some(b) ensures w.cancels[p].phase.Over? {
      assert p !in Live(w, b);
    }
  }

  lemma {:induction false} SectionOrdered(w: World, op: nat)
    requires WaitInv(w) && Enabled(w, CancelSection(op))
    ensures Ordered(Step(w, CancelSection(op)))
  {
    hide Inv, ReportedOnce;
    var w' := Step(w, CancelSection(op));
    forall o, p, b | Drains(w', o, b) && p in w'.cancels && w'.cancels[p].phase.Draining? && w'.cancels[p].current == Some(b)
      ensures w'.cancels[o].stamp < w'.cancels[p].stamp
    {
      if o == op {
        TakenHaveNoCancels(w, op, b);
      } else {
        assert Drains(w, o, b);
      }
    }
  }

  lemma {:induction false} OtherOrdered(w: World, a: Action)
    requires WaitInv(w) && Enabled(w, a) && !a.CancelSection?
    ensures Ordered(Step(w, a))
  {
    hide Inv, ReportedOnce;
    var w' := Step(w, a);
    if a.DoBegin? { BeginHandoffKeeps(w.reg, a.c); }
    forall o, p, b | Drains(w', o, b) && p in w'.cancels && w'.cancels[p].phase.Draining? && w'.cancels[p].current == Some(b)
      ensures w'.cancels[o].stamp < w'.cancels[p].stamp
    {
      assert w'.cancels[o] == w.cancels[o] && w'.cancels[p] == w.cancels[p];
      assert Took(w, o, b) && Gone(w, b);
      assert Drains(w, o, b);
    }
  }

  lemma {:induction false} TakesOnlyWhenDraining(w: World)
    requires Ordered(w)
    ensures forall op | op in w.cancels && w.cancels[op].phase.Protected? :: w.cancels[op].taken == {}
  {
  }

  lemma {:induction false} StepKeepsWaitInv(w: World, a: Action)
    requires WaitInv(w) && Enabled(w, a)
    ensures WaitInv(Step(w, a))
  {
    hide Inv, Exclusive, ReportedOnce, ProtectionCounts, Ordered;
    TakesOnlyWhenDraining(w);
    match a {
      case DoReserve(_, _) | DoBind(_, _) | DoBegin(_) | TaskEnds(_) => OwnershipRegistryStep(w, a);
      case FinishHandoff(c, normal) => OwnershipFinishHandoff(w, c, normal);
      case BeginCancel(op, current, target) => OwnershipBeginCancel(w, op, current, target); BeginCounts(w, op, current, target);
      case AbortCancel(_) | FinishCancel(_, _) => OwnershipEndCancel(w, a); EndCounts(w, a);
      case CancelSection(op) => OwnershipCancelSection(w, op); SectionOrdered(w, op);
      case BeginDiscard(id, c) => OwnershipBeginDiscard(w, id, c);
      case FinishDiscard(id, returned) => OwnershipFinishDiscard(w, id, returned);
    }
    if !a.BeginCancel? && !a.AbortCancel? && !a.FinishCancel? {
      RegistryLeavesProtection(w, a);
      SameProtection(w, Step(w, a));
    }
    if !a.CancelSection? { OtherOrdered(w, a); }
  }

  // ----- runs -----

  ghost predicate LegalRun(w: World, run: seq<Action>)
    decreases |run|
  {
    run == [] || (Enabled(w, run[0]) && LegalRun(Step(w, run[0]), run[1..]))
  }

  ghost function After(w: World, run: seq<Action>): World
    requires LegalRun(w, run)
    decreases |run|
  {
    if run == [] then w else After(Step(w, run[0]), run[1..])
  }

  lemma {:induction false} RunKeepsWaitInv(w: World, run: seq<Action>)
    requires WaitInv(w) && LegalRun(w, run)
    ensures WaitInv(After(w, run))
    decreases |run|
  {
    hide WaitInv, Step;
    if run != [] {
      StepKeepsWaitInv(w, run[0]);
      RunKeepsWaitInv(Step(w, run[0]), run[1..]);
    }
  }

  lemma {:induction false} InitialWaitInv()
    ensures WaitInv(InitialWorld())
  {
    EmptyInv();
    assert forall c :: Live(InitialWorld(), c) == {};
    assert forall c :: ReportCount(InitialWorld(), c) == 0;
  }

  /** Exclusive ownership over every run: for each claim at most one of a completion, a
      cancellation result and a true discard is ever returned, and only once; until then
      it has exactly one owner. */
  lemma {:induction false} AtMostOneReport(run: seq<Action>, c: Claim)
    requires LegalRun(InitialWorld(), run)
    ensures ReportCount(After(InitialWorld(), run), c) <= 1
    ensures Exclusive(After(InitialWorld(), run)) && Inv(After(InitialWorld(), run).reg)
  {
    InitialWaitInv();
    RunKeepsWaitInv(InitialWorld(), run);
    assert ReportedOnce(After(InitialWorld(), run));
  }

  /** A path in the wait-for graph. */
  ghost predicate Path(w: World, p: seq<Claim>) {
    |p| >= 2 && forall i | 0 <= i < |p| - 1 :: WaitsFor(w, p[i], p[i + 1])
  }

  lemma {:induction false} TakerIsUnique(w: World, o: nat, p: nat, b: Claim)
    requires Exclusive(w) && Drains(w, o, b) && Drains(w, p, b)
    ensures o == p
  {
  }

  /** Along a path the draining cancels are ever younger. */
  lemma {:induction false} StampsGrow(w: World, p: seq<Claim>, first: nat, last: nat)
    requires WaitInv(w) && Path(w, p)
    requires Drains(w, first, p[1]) && w.cancels[first].current == Some(p[0])
    requires Drains(w, last, p[|p| - 1])
    ensures w.cancels[first].stamp <= w.cancels[last].stamp
    decreases |p|
  {
    if |p| == 2 {
      TakerIsUnique(w, first, last, p[1]);
    } else {
      assert WaitsFor(w, p[1], p[2]);
      var next :| Drains(w, next, p[2]) && w.cancels[next].current == Some(p[1]);
      forall i | 0 <= i < |p[1..]| - 1 ensures WaitsFor(w, p[1..][i], p[1..][i + 1]) {
        assert WaitsFor(w, p[i + 1], p[i + 2]);
      }
      StampsGrow(w, p[1..], next, last);
    }
  }

  /** Deadlock freedom of mutual cancellation: in every reachable world the graph of
      handoffs waiting to drain other handoffs has no cycle. */
  lemma {:induction false} NoCyclicDrain(run: seq<Action>, p: seq<Claim>)
    requires LegalRun(InitialWorld(), run) && Path(After(InitialWorld(), run), p)
    ensures p[0] != p[|p| - 1]
  {
    InitialWaitInv();
    RunKeepsWaitInv(InitialWorld(), run);
    var w := After(InitialWorld(), run);
    if p[0] == p[|p| - 1] {
      assert WaitsFor(w, p[0], p[1]) && WaitsFor(w, p[|p| - 2], p[|p| - 1]);
      var first :| Drains(w, first, p[1]) && w.cancels[first].current == Some(p[0]);
      var last :| Drains(w, last, p[|p| - 1]) && w.cancels[last].current == Some(p[|p| - 2]);
      StampsGrow(w, p, first, last);
      assert false;
    }
  }

  /** While any handoff waits to drain another, some drained handoff waits for nobody. */
  lemma {:induction false} SomeDrainedHandoffIsFree(w: World, a: Claim, b: Claim)
    returns (c: Claim)
    requires WaitInv(w) && WaitsFor(w, a, b)
    ensures (exists o :: Drains(w, o, c)) && !exists d :: WaitsFor(w, c, d)
  {
    var op :| Drains(w, op, b) && w.cancels[op].current == Some(a);
    c := b;
    while exists d :: WaitsFor(w, c, d)
      invariant Drains(w, op, c) && w.cancels[op].stamp <= w.steps
      decreases w.steps - w.cancels[op].stamp
    {
      var d :| WaitsFor(w, c, d);
      var next :| Drains(w, next, d) && w.cancels[next].current == Some(c);
      op, c := next, d;
    }
  }
}
