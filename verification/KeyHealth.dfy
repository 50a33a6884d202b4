/** What waits, marks and configuration order mean for the keys of a pool. */
module KeyHealth {
  import opened Common
  import opened KeyPool
  import Lineage = KeyLineage
  import Window = SlidingWindow

  // ----- the announced wait -----

  /** The announced wait is the least over the eligible keys. */
  lemma {:induction false} ShortestWaitIsLeast(p: Pool, excluded: set<string>, now: real)
    requires forall i | 0 <= i < |p| :: p[i].window.limit > 0
    ensures forall i | 0 <= i < |p| && Eligible(p[i], excluded, now) ::
              ShortestWait(p, excluded, now).Some? && ShortestWait(p, excluded, now).value <= Window.NextAvailableAt(p[i].window, now)
    ensures ShortestWait(p, excluded, now).Some? ==>
              exists i :: 0 <= i < |p| && Eligible(p[i], excluded, now)
                          && Window.NextAvailableAt(p[i].window, now) == ShortestWait(p, excluded, now).value
  {
    hide Window.NextAvailableAt, Eligible;
    if p != [] {
      var rest := p[1..];
      ShortestWaitIsLeast(rest, excluded, now);
      forall i | 1 <= i < |p| ensures p[i] == rest[i - 1] {
      }
      if ShortestWait(rest, excluded, now).Some? {
        var k :| 0 <= k < |rest| && Eligible(rest[k], excluded, now)
                 && Window.NextAvailableAt(rest[k].window, now) == ShortestWait(rest, excluded, now).value;
        assert p[k + 1] == rest[k];
      }
    }
  }

  /** The wait is exact.  As long as nothing is handed out, some key that is eligible now has room at a later instant exactly when
      the announced wait has run out. */
  lemma {:induction false} ShortestWaitIsExact(p: Pool, clock: real, limit: int, width: real, excluded: set<string>, now: real, later: real)
    requires Inv(p, clock, limit, width) && clock <= now <= later
    ensures forall i | 0 <= i < |p| :: p[i].window.limit > 0
    ensures (exists i :: 0 <= i < |p| && Eligible(p[i], excluded, now) && HasRoom(p[i], later)) <==>
              ShortestWait(p, excluded, now).Some? && later >= now + ShortestWait(p, excluded, now).value
  {
    hide KeyInv, Eligible, Window.NextAvailableAt, HasRoom, ShortestWait;
    forall i | 0 <= i < |p|
      ensures p[i].window.limit > 0
      ensures HasRoom(p[i], later) <==> later >= now + Window.NextAvailableAt(p[i].window, now)
    {
      assert KeyInv(p[i], clock, limit, width);
      RoomLater(p[i], clock, limit, width, now, later);
    }
    ShortestWaitIsLeast(p, excluded, now);
  }

  lemma {:induction false} RoomLater(k: KeyView, clock: real, limit: int, width: real, now: real, later: real)
    requires KeyInv(k, clock, limit, width) && clock <= now <= later
    ensures k.window.limit > 0
    ensures HasRoom(k, later) <==> later >= now + Window.NextAvailableAt(k.window, now)
  {
    hide Window.Inv, Window.NextAvailableAt;
    Window.InvPositive(k.window, clock);
    Window.ExactWaitTime(k.window, clock, now, later);
    Lineage.AfterAfter(k.window.times, now - k.window.width, later - k.window.width);
  }

  // ----- marks -----

  /** What a mark does: a 429 holds the key for at least its cooldown; a failure holds it for its cooldown, or retires it at the
      third in a row; a success ends the row.  Other keys and other fields stay. */
  lemma {:induction false} MarksExactly(p: Pool, op: Op, now: real, p': Pool, i: nat)
    requires (op.Succeed? || op.Fail? || op.RateLimit?) && Trans(p, op, now, p') && i < |p|
    ensures |p'| == |p| && p'[i].window == p[i].window && p'[i].lastUsed == p[i].lastUsed && p'[i].key == p[i].key
    ensures p[i].key != op.key ==> p'[i] == p[i]
    ensures p[i].key == op.key ==>
              && (op.RateLimit? ==>
                    && p'[i].failures == p[i].failures && p'[i].failed == p[i].failed
                    && p'[i].until >= now + 60.0 && p'[i].until >= p[i].until && (p'[i].until == now + 60.0 || p'[i].until == p[i].until))
              && (op.Fail? ==>
                    && p'[i].failures == p[i].failures + 1
                    && if p'[i].failures >= 3 then p'[i].failed && p'[i].until == p[i].until
                       else p'[i].failed == p[i].failed && p'[i].until == now + 300.0)
              && (op.Succeed? ==>
                    && p'[i].failures == 0 && p'[i].failed == p[i].failed
                    && (p'[i].until == p[i].until || (p[i].until <= now && p'[i].until == 0.0)))
  {
  }

  /** How long a mark keeps a key out. */
  function Cooldown(op: Op): real
    requires op.Fail? || op.RateLimit?
  {
    if op.Fail? then 300.0 else 60.0
  }

  /** A key that failed or met a 429 is not handed out before its cooldown has passed, over every run that carries it over, also
      through reloads. */
  lemma {:induction false} MarkedKeysStayOut(g: Lineage.Generation, clock: real, run: seq<Lineage.Turn>, i: nat, n: nat)
    requires Lineage.Sound(g, clock) && Lineage.Linked(g, clock, run) && g.Serving? && i < |g.pool| && run != []
    requires run[0].act.Use? && (run[0].act.op.Fail? || run[0].act.op.RateLimit?) && g.pool[i].key == run[0].act.op.key
    requires Lineage.CarriedOver(g, run, g.pool[i].key) && n < |run| && run[n].now < run[0].now + Cooldown(run[0].act.op)
    ensures !Lineage.HandsOut(run[n].act, g.pool[i].key)
  {
    var t, key := run[0], g.pool[i].key;
    if n > 0 {
      Lineage.LinkedFirst(g, clock, run);
      Lineage.CarriedRest(g, run, key);
      Lineage.TurnKeepsSound(g, clock, t.act, t.now, t.after);
      MarksExactly(g.pool, t.act.op, t.now, t.after.pool, i);
      var bar := if t.after.pool[i].failed then Lineage.Retirement else Lineage.Hold(t.now + Cooldown(t.act.op));
      assert Lineage.Barred(t.after, key, bar);
      hide Lineage.Sound, Lineage.Linked, Lineage.CarriedOver, Lineage.Turns;
      assert run[n] == run[1..][n - 1];
      Lineage.KeysStayOut(t.after, t.now, run[1..], key, bar, n - 1);
    }
  }

  // ----- retirement -----

  /** The failures of a key in a row: since its last success, over a run of one pool. */
  function InARow(run: seq<Op>, key: string, before: nat): nat {
    if run == [] then before
    else
      var last, so := run[|run| - 1], InARow(run[..|run| - 1], key, before);
      if last == Fail(key) then so + 1 else if last == Succeed(key) then 0 else so
  }

  /** Somewhere in the run the key fails for the third time in a row. */
  predicate FailsThrice(run: seq<Op>, key: string, before: nat) {
    && run != []
    && (|| FailsThrice(run[..|run| - 1], key, before)
        || (run[|run| - 1] == Fail(key) && InARow(run, key, before) >= 3))
  }

  ghost predicate Steps(pools: seq<Pool>, run: seq<Op>, times: seq<real>) {
    && |pools| == |run| + 1 && |times| == |run|
    && forall k | 0 <= k < |run| :: !run[k].Import? && Trans(pools[k], run[k], times[k], pools[k + 1])
  }

  lemma {:induction false} StepCounts(p: Pool, op: Op, now: real, p': Pool, i: nat)
    requires Trans(p, op, now, p') && !op.Import? && i < |p|
    ensures i < |p'| && p'[i].key == p[i].key
    ensures p'[i].failures == if op == Fail(p[i].key) then p[i].failures + 1 else if op == Succeed(p[i].key) then 0 else p[i].failures
    ensures p'[i].failed == (p[i].failed || (op == Fail(p[i].key) && p[i].failures + 1 >= 3))
  {
    hide Window.Evicted, Window.TryAcquireAt, Window.HeadroomAt;
    if op.Get? && op.result.Some? {
      var j: nat :| Handed(p, p', op.excluded, now, j) && p[j].key == op.result.value;
    }
  }

  /** A key is retired exactly by failing three times in a row without a success in between, over every run of a pool. */
  lemma {:induction false} RetiredExactly(pools: seq<Pool>, run: seq<Op>, times: seq<real>, i: nat)
    requires Steps(pools, run, times) && i < |pools[0]|
    ensures var p, e := pools[0], pools[|run|];
            && i < |e| && e[i].key == p[i].key && e[i].failures == InARow(run, p[i].key, p[i].failures)
            && (e[i].failed <==> p[i].failed || FailsThrice(run, p[i].key, p[i].failures))
    decreases |run|
  {
    hide Trans;
    if run != [] {
      var n := |run| - 1;
      var so, pools', times' := run[..n], pools[..n + 1], times[..n];
      forall k | 0 <= k < n ensures !so[k].Import? && Trans(pools'[k], so[k], times'[k], pools'[k + 1]) {
        assert !run[k].Import? && Trans(pools[k], run[k], times[k], pools[k + 1]);
      }
      RetiredExactly(pools', so, times', i);
      assert !run[n].Import? && Trans(pools[n], run[n], times[n], pools[n + 1]);
      StepCounts(pools[n], run[n], times[n], pools[n + 1], i);
    }
  }

  // ----- the order of a new pool -----

  /** A new pool hands its keys out in the order they were configured: the first that is not excluded is chosen. */
  lemma {:induction false} FirstConfiguredFirst(names: seq<string>, limit: int, width: real, excluded: set<string>, now: real, i: nat)
    requires limit > 0 && now >= 0.0
    ensures var p := Lineage.NewPool(names, limit, width);
            Chosen(p, excluded, now, i) <==>
              && i < |p| && UniqueNames(names)[i] !in excluded
              && forall j | 0 <= j < i :: UniqueNames(names)[j] in excluded
  {
    hide UniqueNames;
    var p := Lineage.NewPool(names, limit, width);
    forall j | 0 <= j < |p| ensures Usable(p[j], excluded, now) <==> UniqueNames(names)[j] !in excluded {
      FreshHasRoom(limit, width, now);
    }
  }

  lemma {:induction false} FreshHasRoom(limit: int, width: real, now: real)
    requires limit > 0
    ensures Window.HeadroomAt(Window.Fresh(limit, width), now) > 0
  {
  }
}
