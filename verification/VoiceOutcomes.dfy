/** What a run reports of each pending voice note, and when its handoff begins. */
module VoiceOutcomes {
  import opened Common
  import opened VoiceRegistry
  import opened VoiceConcurrency

  // ----- a handoff begins once, after its note was published -----

  ghost predicate Begins(w: World, a: Action, c: Claim) {
    a == DoBegin(c) && BeginHandoff(w.reg, c).1
  }

  ghost predicate Publishes(w: World, a: Action, c: Claim) {
    a.DoBind? && a.c == c && BindStatus(w.reg, c, a.statusId).1
  }

  ghost function BeginCount(w: World, run: seq<Action>, c: Claim): nat
    requires LegalRun(w, run)
    decreases |run|
  {
    if run == [] then 0 else (if Begins(w, run[0], c) then 1 else 0) + BeginCount(Step(w, run[0]), run[1..], c)
  }

  ghost function PublishCount(w: World, run: seq<Action>, c: Claim): nat
    requires LegalRun(w, run)
    decreases |run|
  {
    if run == [] then 0 else (if Publishes(w, run[0], c) then 1 else 0) + PublishCount(Step(w, run[0]), run[1..], c)
  }

  /** The claim has not used up its beginning. */
  ghost predicate MayBegin(w: World, c: Claim) {
    if c in w.reg.entries then !w.reg.entries[c].handedOff else c.serial >= w.reg.issued
  }

  ghost predicate Published(w: World, c: Claim) {
    c in w.reg.entries && w.reg.entries[c].status.Some?
  }

  /** What one step does to the registered claims: an entry is new and bare, or as it was, or bound, or handed off. */
  lemma {:induction false} EntriesAcrossAStep(w: World, a: Action, c: Claim)
    requires Inv(w.reg) && Enabled(w, a)
    ensures w.reg.issued <= Step(w, a).reg.issued
    ensures c in Step(w, a).reg.entries ==>
              var e := Step(w, a).reg.entries[c];
              if c !in w.reg.entries then e == Entry(None, false) && c.serial >= w.reg.issued
              else if Begins(w, a, c) then e == Entry(w.reg.entries[c].status, true)
              else e.handedOff == w.reg.entries[c].handedOff && (e.status == w.reg.entries[c].status || Publishes(w, a, c))
    ensures c in w.reg.entries && c !in Step(w, a).reg.entries ==> c.serial < Step(w, a).reg.issued
    ensures c in Step(w, a).reg.entries ==> c.serial < Step(w, a).reg.issued
  {
    hide Inv, BindStatus, BeginHandoff, Reserve, TakeIfOwned, RemoveAll, Taken;
    if c in w.reg.entries {
      RegisteredIsOld(w.reg, c);
    }
    match a {
      case DoReserve(scope, voiceId) => ReserveKeeps(w.reg, scope, voiceId); IssuedStays(w.reg, a);
      case DoBind(d, statusId) => BindKeeps(w.reg, d, statusId); IssuedStays(w.reg, a);
      case DoBegin(d) => BeginHandoffKeeps(w.reg, d); IssuedStays(w.reg, a);
      case FinishHandoff(d, _) => TakeKeeps(w.reg, d); IssuedStays(w.reg, a);
      case BeginDiscard(_, d) => TakeKeeps(w.reg, d); IssuedStays(w.reg, a);
      case CancelSection(op) =>
        RemoveAllKeeps(w.reg, Taken(w.reg, w.cancels[op].target, w.cancels[op].current));
        RemovalKeepsIssued(w.reg, Taken(w.reg, w.cancels[op].target, w.cancels[op].current));
      case _ =>
    }
  }

  lemma {:induction false} IssuedStays(r: Registry, a: Action)
    ensures a.DoReserve? ==> r.issued <= Reserve(r, a.scope, a.voiceId).0.issued
    ensures a.DoBind? ==> BindStatus(r, a.c, a.statusId).0.issued == r.issued
    ensures a.DoBegin? ==> BeginHandoff(r, a.c).0.issued == r.issued
    ensures a.FinishHandoff? ==> TakeIfOwned(r, a.c).0.issued == r.issued
    ensures a.BeginDiscard? ==> TakeIfOwned(r, a.c).0.issued == r.issued
  {
  }

  lemma {:induction false} RemovalKeepsIssued(r: Registry, cs: set<Claim>)
    ensures RemoveAll(r, cs).issued == r.issued
  {
  }

  lemma {:induction false} BeginsOnlyOnce(w: World, run: seq<Action>, c: Claim)
    requires WaitInv(w) && LegalRun(w, run)
    ensures BeginCount(w, run, c) <= if MayBegin(w, c) && (Published(w, c) || PublishCount(w, run, c) > 0) then 1 else 0
    decreases |run|
  {
    hide WaitInv, Step, BeginHandoff, BindStatus, Begins, Publishes;
    if run != [] {
      var a := run[0];
      assert Inv(w.reg) by { RegistryIsSound(w); }
      StepKeepsWaitInv(w, a);
      EntriesAcrossAStep(w, a, c);
      BeginIsStartable(w, a, c);
      BeginsOnlyOnce(Step(w, a), run[1..], c);
    }
  }

  lemma {:induction false} RegistryIsSound(w: World)
    requires WaitInv(w)
    ensures Inv(w.reg) && Exclusive(w)
  {
  }

  lemma {:induction false} BeginIsStartable(w: World, a: Action, c: Claim)
    requires Inv(w.reg) && Enabled(w, a)
    ensures Begins(w, a, c) ==> Startable(w.reg, c) && c in Step(w, a).reg.entries && Step(w, a).reg.entries[c].handedOff
    ensures Begins(w, a, c) ==> c in Step(w, a).tasks
  {
    hide Inv;
    BeginHandoffKeeps(w.reg, c);
  }

  /** Over every run from the start: a claim's handoff begins at most once, and only after its note was published under a
      status message. */
  lemma {:induction false} HandoffBeginsOnce(run: seq<Action>, c: Claim)
    requires LegalRun(InitialWorld(), run)
    ensures BeginCount(InitialWorld(), run, c) <= if PublishCount(InitialWorld(), run, c) > 0 then 1 else 0
  {
    InitialWaitInv();
    BeginsOnlyOnce(InitialWorld(), run, c);
  }

  /** At any time it begins if and only if its claim is registered and published and it has not begun before. */
  lemma {:induction false} HandoffBeginsExactly(run: seq<Action>, c: Claim)
    requires LegalRun(InitialWorld(), run)
    ensures var w := After(InitialWorld(), run);
            Begins(w, DoBegin(c), c) <==> c in w.reg.entries && Published(w, c) && BeginCount(InitialWorld(), run, c) == 0
  {
    hide WaitInv, Step;
    InitialWaitInv();
    RunKeepsWaitInv(InitialWorld(), run);
    var w := After(InitialWorld(), run);
    assert Inv(w.reg) by { RegistryIsSound(w); }
    BeginHandoffKeeps(w.reg, c);
    if c in w.reg.entries {
      HandedOffMeansBegun(InitialWorld(), run, c);
    }
  }

  lemma {:induction false} HandedOffMeansBegun(w: World, run: seq<Action>, c: Claim)
    requires WaitInv(w) && LegalRun(w, run) && c in After(w, run).reg.entries
    ensures After(w, run).reg.entries[c].handedOff <==>
              BeginCount(w, run, c) > 0 || (c in w.reg.entries && w.reg.entries[c].handedOff)
    decreases |run|
  {
    hide WaitInv, Step, BeginHandoff, BindStatus, Begins, Publishes;
    if run != [] {
      var a := run[0];
      assert Inv(w.reg) by { RegistryIsSound(w); }
      StepKeepsWaitInv(w, a);
      EntriesAcrossAStep(w, a, c);
      BeginIsStartable(w, a, c);
      HandedOffMeansBegun(Step(w, a), run[1..], c);
      StaysGone(w, a, run, c);
    }
  }

  /** A claim that is registered at the end, and was before, was so all along. */
  lemma {:induction false} StaysGone(w: World, a: Action, run: seq<Action>, c: Claim)
    requires WaitInv(w) && LegalRun(w, run) && run != [] && a == run[0] && c in After(w, run).reg.entries
    ensures c in w.reg.entries ==> c in Step(w, a).reg.entries
    ensures Begins(w, a, c) ==> c in Step(w, a).reg.entries
  {
    hide WaitInv, Step, BeginHandoff;
    assert Inv(w.reg) by { RegistryIsSound(w); }
    StepKeepsWaitInv(w, a);
    EntriesAcrossAStep(w, a, c);
    BeginIsStartable(w, a, c);
    if c in w.reg.entries && c !in Step(w, a).reg.entries {
      GoneForGood(Step(w, a), run[1..], c);
    }
  }

  lemma {:induction false} GoneForGood(w: World, run: seq<Action>, c: Claim)
    requires WaitInv(w) && LegalRun(w, run) && Gone(w, c)
    ensures Gone(After(w, run), c)
    decreases |run|
  {
    hide WaitInv, Step;
    if run != [] {
      assert Inv(w.reg) by { RegistryIsSound(w); }
      StepKeepsWaitInv(w, run[0]);
      EntriesAcrossAStep(w, run[0], c);
      GoneForGood(Step(w, run[0]), run[1..], c);
    }
  }

  // ----- every end is reported -----

  /** The ending operation returned its result; otherwise it raised. */
  predicate Returns(a: Action) {
    match a
    case FinishHandoff(_, normal) => normal
    case FinishCancel(_, returned) => returned
    case FinishDiscard(_, returned) => returned
    case _ => true
  }

  /** What a step reports: a completion when the claim's own handoff finishes while it is still registered, a cancellation
      when the cancel that took it finishes, a discard when the discard that took it does; each once, and nothing else. */
  lemma {:induction false} ReportsOfAStep(w: World, a: Action, c: Claim)
    requires WaitInv(w) && Enabled(w, a)
    ensures var w' := Step(w, a);
            && w'.reports[(c, Completed)] == w.reports[(c, Completed)] + (if a == FinishHandoff(c, true) && c in w.reg.entries then 1 else 0)
            && w'.reports[(c, Cancelled)] ==
               w.reports[(c, Cancelled)] + (if a.FinishCancel? && a.returned && Took(w, a.op, c) then 1 else 0)
            && w'.reports[(c, Discarded)] ==
               w.reports[(c, Discarded)] + (if a.FinishDiscard? && a.returned && w.discards[a.id] == c then 1 else 0)
  {
    hide Inv, Exclusive, ReportedOnce, ProtectionCounts, Ordered;
    match a {
      case FinishHandoff(d, _) => TakeKeeps(w.reg, d);
      case FinishCancel(op, _) => CancelReportsCount(w.cancels[op].taken, c);
      case _ =>
    }
  }

  lemma {:induction false} CancelReportsCount(taken: set<Claim>, c: Claim)
    ensures CancelReports(taken)[(c, Cancelled)] == if c in taken then 1 else 0
    ensures CancelReports(taken)[(c, Completed)] == 0 && CancelReports(taken)[(c, Discarded)] == 0
  {
    assert (c, Cancelled) in (set d | d in taken :: (d, Cancelled)) <==> c in taken;
  }

  lemma {:induction false} ClosedByAStep(w: World, a: Action, c: Claim)
    requires WaitInv(w) && Enabled(w, a)
    ensures var w' := Step(w, a);
            c in w'.closed <==>
              || c in w.closed
              || (a.FinishHandoff? && a.c == c && c in w.reg.entries)
              || (a.FinishCancel? && Took(w, a.op, c))
              || (a.FinishDiscard? && w.discards[a.id] == c)
  {
    hide Inv, Exclusive, ReportedOnce, ProtectionCounts;
    if a.FinishHandoff? {
      TakeKeeps(w.reg, a.c);
    }
  }

  ghost predicate AllReported(w: World) {
    forall c | c in w.closed :: ReportCount(w, c) == 1
  }

  lemma {:induction false} StepKeepsAllReported(w: World, a: Action)
    requires WaitInv(w) && AllReported(w) && Enabled(w, a) && Returns(a)
    ensures AllReported(Step(w, a))
  {
    hide Inv, Exclusive, ProtectionCounts, Ordered, Step;
    StepKeepsWaitInv(w, a);
    var w' := Step(w, a);
    forall c | c in w'.closed ensures ReportCount(w', c) == 1 {
      ReportsOfAStep(w, a, c);
      ClosedByAStep(w, a, c);
      assert ReportCount(w', c) <= 1;
    }
  }

  lemma {:induction false} RunKeepsAllReported(w: World, run: seq<Action>)
    requires WaitInv(w) && AllReported(w) && LegalRun(w, run) && forall k | 0 <= k < |run| :: Returns(run[k])
    ensures AllReported(After(w, run))
    decreases |run|
  {
    hide WaitInv, Step, AllReported, Returns;
    if run != [] {
      StepKeepsWaitInv(w, run[0]);
      StepKeepsAllReported(w, run[0]);
      RunKeepsAllReported(Step(w, run[0]), run[1..]);
    }
  }

  /** Over every run in which the ending operations return: each claim whose ownership has ended was reported exactly once. */
  lemma {:induction false} EveryEndIsReported(run: seq<Action>, c: Claim)
    requires LegalRun(InitialWorld(), run) && (forall k | 0 <= k < |run| :: Returns(run[k]))
    requires c in After(InitialWorld(), run).closed
    ensures ReportCount(After(InitialWorld(), run), c) == 1
  {
    InitialWaitInv();
    RunKeepsAllReported(InitialWorld(), run);
  }

  // ----- nothing is lost -----

  /** Somebody owns the claim, or its ownership has ended. */
  ghost predicate Kept(w: World, c: Claim) {
    c in w.reg.entries || (exists op :: Took(w, op, c)) || (exists id :: id in w.discards && w.discards[id] == c) || c in w.closed
  }

  lemma {:induction false} TakenStays(w: World, a: Action, c: Claim, op: nat)
    requires WaitInv(w) && Enabled(w, a) && Took(w, op, c)
    ensures Kept(Step(w, a), c)
  {
    hide Inv, Exclusive, ReportedOnce, ProtectionCounts;
    ClosedByAStep(w, a, c);
    if c !in Step(w, a).closed {
      assert Took(Step(w, a), op, c);
    }
  }

  lemma {:induction false} DiscardedStays(w: World, a: Action, c: Claim, id: nat)
    requires WaitInv(w) && Enabled(w, a) && id in w.discards && w.discards[id] == c
    ensures Kept(Step(w, a), c)
  {
    hide Inv, Exclusive, ReportedOnce, ProtectionCounts, Ordered;
    ClosedByAStep(w, a, c);
    if c !in Step(w, a).closed {
      assert id in Step(w, a).discards;
    }
  }

  lemma {:induction false} RegisteredStays(w: World, a: Action, c: Claim)
    requires WaitInv(w) && Enabled(w, a) && c in w.reg.entries
    ensures Kept(Step(w, a), c)
  {
    hide Exclusive, ReportedOnce, ProtectionCounts, Ordered, Taken, BindStatus, BeginHandoff, TakeIfOwned, RemoveAll, Inv, Reserve;
    ClosedByAStep(w, a, c);
    match a {
      case DoReserve(scope, voiceId) => ReserveKeeps(w.reg, scope, voiceId);
      case DoBind(d, statusId) => BindKeeps(w.reg, d, statusId);
      case DoBegin(d) => BeginHandoffKeeps(w.reg, d);
      case FinishHandoff(d, _) => TakeKeeps(w.reg, d);
      case BeginDiscard(id, d) =>
        TakeKeeps(w.reg, d);
        if c == d {
          assert id in Step(w, a).discards && Step(w, a).discards[id] == c;
        }
      case CancelSection(op) =>
        var taken := Taken(w.reg, w.cancels[op].target, w.cancels[op].current);
        RemoveAllKeeps(w.reg, taken);
        if c in taken {
          assert Took(Step(w, a), op, c);
        }
      case _ =>
    }
  }

  lemma {:induction false} RunKeepsKept(w: World, run: seq<Action>, c: Claim)
    requires WaitInv(w) && LegalRun(w, run) && Kept(w, c)
    ensures Kept(After(w, run), c)
    decreases |run|
  {
    hide WaitInv, Step;
    if run != [] {
      var a := run[0];
      StepKeepsWaitInv(w, a);
      if c in w.reg.entries {
        RegisteredStays(w, a, c);
      } else if exists op :: Took(w, op, c) {
        var op :| Took(w, op, c);
        TakenStays(w, a, c, op);
      } else if exists id :: id in w.discards && w.discards[id] == c {
        var id :| id in w.discards && w.discards[id] == c;
        DiscardedStays(w, a, c, id);
      } else {
        ClosedByAStep(w, a, c);
      }
      RunKeepsKept(Step(w, a), run[1..], c);
    }
  }

  /** Over every run a reserved claim is never lost: it is registered, or with the one cancel or discard that took it, or its
      ownership has ended. */
  lemma {:induction false} NoClaimIsLost(before: seq<Action>, after: seq<Action>, c: Claim)
    requires LegalRun(InitialWorld(), before) && LegalRun(After(InitialWorld(), before), after)
    requires c in After(InitialWorld(), before).reg.entries
    ensures Kept(After(After(InitialWorld(), before), after), c)
  {
    hide WaitInv, Step;
    InitialWaitInv();
    RunKeepsWaitInv(InitialWorld(), before);
    RunKeepsKept(After(InitialWorld(), before), after, c);
  }

  // ----- a completion or a cancellation is reported when the handoff's task is over -----

  ghost predicate TasksOver(w: World) {
    forall c | w.reports[(c, Completed)] + w.reports[(c, Cancelled)] > 0 :: c !in w.tasks && c in w.closed
  }

  lemma {:induction false} StepKeepsTasksOver(w: World, a: Action)
    requires WaitInv(w) && TasksOver(w) && Enabled(w, a)
    ensures TasksOver(Step(w, a))
  {
    hide Inv, ReportedOnce, ProtectionCounts, Ordered, Step;
    var w' := Step(w, a);
    forall c | w'.reports[(c, Completed)] + w'.reports[(c, Cancelled)] > 0 ensures c !in w'.tasks && c in w'.closed {
      ReportsOfAStep(w, a, c);
      ClosedByAStep(w, a, c);
      TasksOfAStep(w, a, c);
    }
  }

  lemma {:induction false} TasksOfAStep(w: World, a: Action, c: Claim)
    requires WaitInv(w) && Enabled(w, a)
    ensures c in Step(w, a).tasks ==> c in w.tasks || (a == DoBegin(c) && c in w.reg.entries)
    ensures a.FinishHandoff? && a.c == c ==> c !in w.tasks
    ensures a.FinishCancel? && Took(w, a.op, c) ==> c !in w.tasks
  {
    hide Inv, ReportedOnce, ProtectionCounts, Ordered, Exclusive;
    if a.DoBegin? {
      BeginHandoffKeeps(w.reg, a.c);
    }
  }

  lemma {:induction false} RunKeepsTasksOver(w: World, run: seq<Action>)
    requires WaitInv(w) && TasksOver(w) && LegalRun(w, run)
    ensures TasksOver(After(w, run))
    decreases |run|
  {
    hide WaitInv, Step, TasksOver;
    if run != [] {
      StepKeepsWaitInv(w, run[0]);
      StepKeepsTasksOver(w, run[0]);
      RunKeepsTasksOver(Step(w, run[0]), run[1..]);
    }
  }

  /** Over every run: once a completion or a cancellation of a claim is reported, no task of its handoff is left running. */
  lemma {:induction false} NoTaskOutlivesItsReport(run: seq<Action>, c: Claim)
    requires LegalRun(InitialWorld(), run)
    requires var w := After(InitialWorld(), run); w.reports[(c, Completed)] + w.reports[(c, Cancelled)] > 0
    ensures c !in After(InitialWorld(), run).tasks
  {
    hide WaitInv, Step;
    InitialWaitInv();
    RunKeepsTasksOver(InitialWorld(), run);
  }
}
