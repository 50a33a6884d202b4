/** Credential rotation: least recently used first, each key behind its own window. */
module KeyPool {
  import opened Common
  import Window = SlidingWindow

  const MAX_CONSECUTIVE_FAILURES := 3
  const FAILURE_COOLDOWN := 300.0
  const RATE_LIMIT_COOLDOWN := 60.0

  datatype KeyView = KeyView(key: string, window: Window.Window, lastUsed: real, failures: nat, failed: bool, until: real)

  datatype Snapshot = Snapshot(sentAt: seq<real>, lastUsed: real, failures: nat, failed: bool, until: real)

  type Pool = seq<KeyView>

  // ----- eligibility and choice -----

  predicate Eligible(k: KeyView, excluded: set<string>, now: real) {
    k.key !in excluded && !k.failed && now >= k.until
  }

  predicate HasRoom(k: KeyView, now: real) {
    Window.HeadroomAt(k.window, now) > 0
  }

  predicate Usable(k: KeyView, excluded: set<string>, now: real) {
    Eligible(k, excluded, now) && HasRoom(k, now)
  }

  /** `i` was used longer ago than `j`, or as long ago and stands first. */
  predicate Before(p: Pool, i: nat, j: nat)
    requires i < |p| && j < |p|
  {
    p[i].lastUsed < p[j].lastUsed || (p[i].lastUsed == p[j].lastUsed && i < j)
  }

  /** The key to hand out: usable, and least recently used among the usable. */
  predicate Chosen(p: Pool, excluded: set<string>, now: real, i: nat) {
    && i < |p| && Usable(p[i], excluded, now)
    && forall j | 0 <= j < |p| && Usable(p[j], excluded, now) && j != i :: Before(p, i, j)
  }

  predicate AnyUsable(p: Pool, excluded: set<string>, now: real) {
    exists i :: 0 <= i < |p| && Usable(p[i], excluded, now)
  }

  /** The shortest wait among the eligible keys, as `next_available_in` computes it. */
  function ShortestWait(p: Pool, excluded: set<string>, now: real): Option<real>
    requires forall i | 0 <= i < |p| :: p[i].window.limit > 0
  {
    if p == [] then None else ShorterWait(p[0], excluded, now, ShortestWait(p[1..], excluded, now))
  }

  /** One more key: its wait if it is eligible and no other is shorter. */
  function ShorterWait(k: KeyView, excluded: set<string>, now: real, rest: Option<real>): Option<real>
    requires k.window.limit > 0
  {
    if !Eligible(k, excluded, now) then rest
    else
      var wait := Window.NextAvailableAt(k.window, now);
      if rest.Some? && rest.value < wait then rest else Some(wait)
  }

  // ----- the invariant -----

  ghost predicate KeyInv(k: KeyView, clock: real, limit: int, width: real) {
    Window.Inv(k.window, clock) && k.window.limit == limit && k.window.width == width
  }

  ghost predicate Inv(p: Pool, clock: real, limit: int, width: real) {
    && (forall i, j | 0 <= i < j < |p| :: p[i].key != p[j].key)
    && (forall i | 0 <= i < |p| :: KeyInv(p[i], clock, limit, width))
  }

  /** A key's window has room exactly when its wait is zero. */
  lemma {:induction false} RoomMeansNoWait(k: KeyView, clock: real, limit: int, width: real, now: real)
    requires KeyInv(k, clock, limit, width) && clock <= now
    ensures k.window.limit > 0
    ensures HasRoom(k, now) <==> Window.NextAvailableAt(k.window, now) == 0.0
    ensures HasRoom(k, now) <==> Window.TryAcquireAt(k.window, now).1
    ensures Window.NextAvailableAt(k.window, now) >= 0.0
  {
    hide Window.Inv;
    Window.InvPositive(k.window, clock);
    if |Window.After(k.window.times, now - k.window.width)| >= k.window.limit {
      Window.RetryWaitsPositive(k.window, clock, now);
    }
  }

  lemma {:induction false} WaitIsZeroIffUsable(p: Pool, clock: real, limit: int, width: real, excluded: set<string>, now: real)
    requires forall i | 0 <= i < |p| :: KeyInv(p[i], clock, limit, width)
    requires clock <= now && limit > 0
    ensures forall i | 0 <= i < |p| :: p[i].window.limit > 0
    ensures ShortestWait(p, excluded, now) == Some(0.0) <==> AnyUsable(p, excluded, now)
    ensures ShortestWait(p, excluded, now).Some? ==> ShortestWait(p, excluded, now).value >= 0.0
    ensures ShortestWait(p, excluded, now).None? <==> forall i | 0 <= i < |p| :: !Eligible(p[i], excluded, now)
    decreases |p|
  {
    hide KeyInv, Window.NextAvailableAt, Window.HeadroomAt;
    if p != [] {
      forall i | 0 <= i < |p[1..]| ensures KeyInv(p[1..][i], clock, limit, width) {
        assert KeyInv(p[i + 1], clock, limit, width);
      }
      forall i | 0 <= i < |p| ensures p[i].window.limit > 0 {
        KeyLimit(p[i], clock, limit, width);
      }
      WaitIsZeroIffUsable(p[1..], clock, limit, width, excluded, now);
      assert KeyInv(p[0], clock, limit, width);
      RoomMeansNoWait(p[0], clock, limit, width, now);
      assert AnyUsable(p, excluded, now) <==> Usable(p[0], excluded, now) || AnyUsable(p[1..], excluded, now) by {
        if AnyUsable(p[1..], excluded, now) {
          var i :| 0 <= i < |p[1..]| && Usable(p[1..][i], excluded, now);
          assert Usable(p[i + 1], excluded, now);
        }
        if AnyUsable(p, excluded, now) && !Usable(p[0], excluded, now) {
          var i :| 0 <= i < |p| && Usable(p[i], excluded, now);
          assert Usable(p[1..][i - 1], excluded, now);
        }
      }
      forall i | 0 <= i < |p[1..]| ensures Eligible(p[1..][i], excluded, now) == Eligible(p[i + 1], excluded, now) {
      }
      if forall i | 0 <= i < |p[1..]| :: !Eligible(p[1..][i], excluded, now) {
        forall i | 1 <= i < |p| ensures !Eligible(p[i], excluded, now) {
          assert !Eligible(p[1..][i - 1], excluded, now);
        }
      }
    }
  }

  lemma {:induction false} KeyLimit(k: KeyView, clock: real, limit: int, width: real)
    requires KeyInv(k, clock, limit, width)
    ensures k.window.limit == limit
  {
  }

  /** Some key is chosen exactly when some key is usable. */
  lemma {:induction false} ChoiceExists(p: Pool, excluded: set<string>, now: real)
    ensures AnyUsable(p, excluded, now) <==> exists i: nat :: Chosen(p, excluded, now, i)
    decreases |p|
  {
    if AnyUsable(p, excluded, now) {
      var best := FirstBest(p, excluded, now, |p|);
      assert Chosen(p, excluded, now, best);
    }
    if exists i: nat :: Chosen(p, excluded, now, i) {
      var i: nat :| Chosen(p, excluded, now, i);
      assert Usable(p[i], excluded, now);
    }
  }

  /** The best usable key among the first `n`, given that there is one. */
  lemma {:induction false} FirstBest(p: Pool, excluded: set<string>, now: real, n: nat) returns (best: nat)
    requires n <= |p| && exists i :: 0 <= i < n && Usable(p[i], excluded, now)
    ensures best < n && Usable(p[best], excluded, now)
    ensures forall j | 0 <= j < n && Usable(p[j], excluded, now) && j != best :: Before(p, best, j)
  {
    if exists i :: 0 <= i < n - 1 && Usable(p[i], excluded, now) {
      best := FirstBest(p, excluded, now, n - 1);
      if Usable(p[n - 1], excluded, now) && Before(p, n - 1, best) {
        best := n - 1;
      }
    } else {
      best := n - 1;
    }
  }

  // ----- the operations, as relations between pools -----

  function EvictedKey(k: KeyView, now: real): KeyView {
    k.(window := Window.Evicted(k.window, now))
  }

  /** Looking at a key may evict what its window has outlived, and changes nothing else. */
  predicate SameUpToEviction(k: KeyView, k': KeyView, now: real) {
    k' == k || k' == EvictedKey(k, now)
  }

  predicate AllSame(p: Pool, p': Pool, now: real) {
    |p'| == |p| && forall j | 0 <= j < |p| :: SameUpToEviction(p[j], p'[j], now)
  }

  function Granted(k: KeyView, now: real): KeyView {
    k.(window := Window.TryAcquireAt(k.window, now).0, lastUsed := now)
  }

  function Succeeded(k: KeyView, now: real): KeyView {
    k.(failures := 0, until := if k.until != 0.0 && now >= k.until then 0.0 else k.until)
  }

  function FailedOnce(k: KeyView, now: real): KeyView {
    var failures := k.failures + 1;
    if failures >= MAX_CONSECUTIVE_FAILURES then k.(failures := failures, failed := true)
    else k.(failures := failures, until := now + FAILURE_COOLDOWN)
  }

  function RateLimited(k: KeyView, now: real): KeyView {
    k.(until := if k.until < now + RATE_LIMIT_COOLDOWN then now + RATE_LIMIT_COOLDOWN else k.until)
  }

  function Resumed(k: KeyView, s: Snapshot, now: real): KeyView {
    KeyView(k.key, Window.Evicted(Window.TakenOver(k.window, s.sentAt), now), s.lastUsed, s.failures, s.failed, s.until)
  }

  datatype Op =
    | Get(excluded: set<string>, result: Option<string>)
    | Look
    | Succeed(key: string)
    | Fail(key: string)
    | RateLimit(key: string)
    | Import(snapshot: map<string, Snapshot>)

  function Marked(op: Op, k: KeyView, now: real): KeyView
    requires op.Succeed? || op.Fail? || op.RateLimit?
  {
    if k.key != op.key then k
    else if op.Succeed? then Succeeded(k, now)
    else if op.Fail? then FailedOnce(k, now)
    else RateLimited(k, now)
  }

  ghost predicate Handed(p: Pool, p': Pool, excluded: set<string>, now: real, i: nat) {
    && Chosen(p, excluded, now, i) && |p'| == |p| && p'[i] == Granted(p[i], now)
    && forall j | 0 <= j < |p| && j != i :: SameUpToEviction(p[j], p'[j], now)
  }

  /** One operation at `now`: what it may return, and the pool afterwards. */
  ghost predicate Trans(p: Pool, op: Op, now: real, p': Pool) {
    match op
    case Get(excluded, result) =>
      if result.None? then !AnyUsable(p, excluded, now) && AllSame(p, p', now)
      else exists i: nat :: Handed(p, p', excluded, now, i) && p[i].key == result.value
    case Look => AllSame(p, p', now)
    case Import(snapshot) =>
      && |p'| == |p|
      && (forall k | k in snapshot :: Window.NoneLater(snapshot[k].sentAt, now))
      && forall j | 0 <= j < |p| ::
           p'[j] == if p[j].key in snapshot then Resumed(p[j], snapshot[p[j].key], now) else p[j]
    case _ => |p'| == |p| && forall j | 0 <= j < |p| :: p'[j] == Marked(op, p[j], now)
  }

  lemma {:induction false} LaterKey(k: KeyView, clock: real, limit: int, width: real, now: real)
    requires KeyInv(k, clock, limit, width) && clock <= now
    ensures KeyInv(k, now, limit, width) && KeyInv(EvictedKey(k, now), now, limit, width)
    ensures KeyInv(Granted(k, now), now, limit, width)
  {
    hide Window.Inv;
    Window.ClockAdvances(k.window, clock, now);
    Window.EvictedDequeIsUnexpiredLog(k.window, clock, now);
    Window.StepKeepsInv(k.window, clock, Window.Try(now));
  }

  lemma {:induction false} ResumedKey(k: KeyView, clock: real, limit: int, width: real, s: Snapshot, now: real)
    requires KeyInv(k, clock, limit, width) && clock <= now && Window.NoneLater(s.sentAt, now)
    ensures KeyInv(Resumed(k, s, now), now, limit, width)
  {
    hide Window.Inv;
    Window.InvPositive(k.window, clock);
    Window.StepKeepsInv(k.window, clock, Window.Import(now, s.sentAt));
  }

  lemma {:induction false} SameKeyInv(k: KeyView, k': KeyView, clock: real, limit: int, width: real, now: real)
    requires KeyInv(k, clock, limit, width) && clock <= now && SameUpToEviction(k, k', now)
    ensures KeyInv(k', now, limit, width) && k'.key == k.key
  {
    LaterKey(k, clock, limit, width, now);
  }

  lemma {:induction false} TransKeepsInv(p: Pool, clock: real, limit: int, width: real, op: Op, now: real, p': Pool)
    requires Inv(p, clock, limit, width) && clock <= now && Trans(p, op, now, p')
    ensures Inv(p', now, limit, width) && |p'| == |p| && forall j | 0 <= j < |p| :: p'[j].key == p[j].key
  {
    hide KeyInv, Granted, EvictedKey, Window.Evicted;
    var i: int := if op.Get? && op.result.Some? then (var i: nat :| Handed(p, p', op.excluded, now, i) && p[i].key == op.result.value; i) else -1;
    assert |p'| == |p|;
    forall j | 0 <= j < |p|
      ensures KeyInv(p'[j], now, limit, width) && p'[j].key == p[j].key
    {
      assert KeyInv(p[j], clock, limit, width);
      LaterKey(p[j], clock, limit, width, now);
      GrantKeepsKey(p[j], now);
      match op {
        case Get(_, _) => if j != i { SameKeyInv(p[j], p'[j], clock, limit, width, now); }
        case Look => SameKeyInv(p[j], p'[j], clock, limit, width, now);
        case Import(snapshot) =>
          if p[j].key in snapshot { ResumedKey(p[j], clock, limit, width, snapshot[p[j].key], now); }
        case _ => MarkedKey(op, p[j], limit, width, now);
      }
    }
  }

  lemma {:induction false} GrantKeepsKey(k: KeyView, now: real)
    ensures Granted(k, now).key == k.key
  {
  }

  lemma {:induction false} MarkedKey(op: Op, k: KeyView, limit: int, width: real, now: real)
    requires (op.Succeed? || op.Fail? || op.RateLimit?) && KeyInv(k, now, limit, width)
    ensures KeyInv(Marked(op, k, now), now, limit, width) && Marked(op, k, now).key == k.key
  {
  }

  // ----- carrying keys into a new generation -----

  function SnapshotOf(k: KeyView, now: real): Snapshot {
    Snapshot(Window.Evicted(k.window, now).times, k.lastUsed, k.failures, k.failed, k.until)
  }

  /** The names kept from a configuration: non-empty ones, at their first mention. */
  function UniqueNames(names: seq<string>): seq<string> {
    if names == [] then []
    else
      var rest, last := UniqueNames(names[..|names| - 1]), names[|names| - 1];
      if last == "" || last in rest then rest else rest + [last]
  }

  lemma {:induction false} UniqueNamesAreDistinct(names: seq<string>)
    ensures forall i, j | 0 <= i < j < |UniqueNames(names)| :: UniqueNames(names)[i] != UniqueNames(names)[j]
    ensures forall n :: n in UniqueNames(names) <==> n in names && n != ""
  {
    if names != [] {
      UniqueNamesAreDistinct(names[..|names| - 1]);
      assert names == names[..|names| - 1] + [names[|names| - 1]];
    }
  }

  function FreshKey(names: seq<string>, i: nat, limit: int, width: real): KeyView
    requires i < |names|
  {
    KeyView(names[i], Window.Fresh(limit, width), -((|names| - i) as real), 0, false, 0.0)
  }

  /** A key exported from one generation and resumed by the next behaves as before: same
      health, same standing in the order, and the same room at every later time. */
  lemma {:induction false} ResumeRestores(k: KeyView, k2: KeyView, clock: real, limit: int, width: real, now: real, t: real,
                                          excluded: set<string>)
    requires KeyInv(k, clock, limit, width) && KeyInv(k2, clock, limit, width) && k.key == k2.key && clock <= now <= t
    ensures var r := Resumed(k2, SnapshotOf(k, now), now);
            && r.lastUsed == k.lastUsed && r.failures == k.failures && r.failed == k.failed && r.until == k.until
            && r.window.times == Window.After(Window.Stamps(k.window.log), now - width)
            && Usable(r, excluded, t) == Usable(EvictedKey(k, now), excluded, t)
  {
    hide Window.Inv;
    Window.EvictedDequeIsUnexpiredLog(k.window, clock, now);
    Window.DequeShape(k.window, clock, now);
    var times := Window.Evicted(k.window, now).times;
    Window.SortingSortedChangesNothing(times);
    Window.AfterKeepsAll(times, now - width);
  }

  // ----- what selection promises -----

  /** At one instant: a key is eligible with room, a key is handed out, and the announced
      wait is zero, all three or none. */
  lemma {:induction false} SelectionAgrees(p: Pool, clock: real, limit: int, width: real, excluded: set<string>, now: real,
                                           result: Option<string>, p': Pool)
    requires Inv(p, clock, limit, width) && clock <= now && limit > 0
    requires Trans(p, Get(excluded, result), now, p')
    ensures forall i | 0 <= i < |p| :: p[i].window.limit > 0
    ensures result.Some? <==> AnyUsable(p, excluded, now)
    ensures result.Some? <==> ShortestWait(p, excluded, now) == Some(0.0)
    ensures result.Some? ==> result.value !in excluded
  {
    hide KeyInv;
    forall i | 0 <= i < |p| ensures p[i].window.limit > 0 {
      assert KeyInv(p[i], clock, limit, width);
      KeyLimit(p[i], clock, limit, width);
    }
    WaitIsZeroIffUsable(p, clock, limit, width, excluded, now);
    if result.Some? {
      var i: nat :| Handed(p, p', excluded, now, i) && p[i].key == result.value;
      assert Usable(p[i], excluded, now);
    }
  }

  /** A hand-out records exactly one acquisition, on the chosen key, and makes it the most
      recently used. */
  lemma {:induction false} HandOutRecordsOnce(p: Pool, clock: real, limit: int, width: real, excluded: set<string>, now: real,
                                               i: nat, p': Pool)
    requires Inv(p, clock, limit, width) && clock <= now && Handed(p, p', excluded, now, i)
    ensures p'[i].lastUsed == now && p'[i].window.log == p[i].window.log + [Window.Admission(now, limit)]
    ensures forall j | 0 <= j < |p| && j != i :: p'[j].window.log == p[j].window.log && p'[j].lastUsed == p[j].lastUsed
  {
    hide KeyInv;
    assert KeyInv(p[i], clock, limit, width);
    RoomMeansNoWait(p[i], clock, limit, width, now);
    KeyLimit(p[i], clock, limit, width);
  }

  // ----- holds and retirement -----

  /** Holds reach at most one cooldown ahead of the clock. */
  ghost predicate HoldsBounded(p: Pool, clock: real) {
    forall i | 0 <= i < |p| :: p[i].until <= clock + FAILURE_COOLDOWN || p[i].until <= 0.0
  }

  /** Over one operation other than an import, which only a new pool performs: retired keys stay retired and are not handed out,
      running holds are not shortened, and holds stay bounded. */
  lemma {:induction false} TransKeepsHealth(p: Pool, clock: real, op: Op, now: real, p': Pool)
    requires clock <= now && now > 0.0 && Trans(p, op, now, p') && !op.Import? && HoldsBounded(p, clock)
    ensures HoldsBounded(p', now) && |p'| == |p|
    ensures forall j | 0 <= j < |p| :: p'[j].key == p[j].key && (p[j].failed ==> p'[j].failed)
    ensures forall j | 0 <= j < |p| && p[j].until > now :: p'[j].until >= p[j].until
    ensures op.Get? && op.result.Some? ==> exists j :: 0 <= j < |p| && p[j].key == op.result.value && !p[j].failed && now >= p[j].until
  {
    hide Window.Evicted, Window.TryAcquireAt, Window.HeadroomAt;
    if op.Get? && op.result.Some? {
      var i: nat :| Handed(p, p', op.excluded, now, i) && p[i].key == op.result.value;
      assert Usable(p[i], op.excluded, now);
    }
  }

  // ----- runs -----

  datatype Event = Event(op: Op, now: real, pool: Pool)

  ghost predicate Linked(p: Pool, clock: real, run: seq<Event>)
    decreases |run|
  {
    run == [] || (clock <= run[0].now && run[0].now > 0.0 && Trans(p, run[0].op, run[0].now, run[0].pool)
                  && Linked(run[0].pool, run[0].now, run[1..]))
  }

  ghost function EndPool(p: Pool, run: seq<Event>): Pool {
    if run == [] then p else run[|run| - 1].pool
  }

  ghost function EndClock(clock: real, run: seq<Event>): real {
    if run == [] then clock else run[|run| - 1].now
  }

  lemma {:induction false} RunKeepsInv(p: Pool, clock: real, limit: int, width: real, run: seq<Event>)
    requires Inv(p, clock, limit, width) && Linked(p, clock, run)
    ensures Inv(EndPool(p, run), EndClock(clock, run), limit, width) && |EndPool(p, run)| == |p|
    decreases |run|
  {
    hide Inv, Trans;
    if run != [] {
      TransKeepsInv(p, clock, limit, width, run[0].op, run[0].now, run[0].pool);
      RunKeepsInv(run[0].pool, run[0].now, limit, width, run[1..]);
    }
  }

  ghost predicate UnimportedKey(k: KeyView, limit: int) {
    forall j | 0 <= j < |k.window.log| :: k.window.log[j].Admission? && k.window.log[j].limit <= limit
  }

  ghost predicate Unimported(p: Pool, limit: int) {
    forall i | 0 <= i < |p| :: UnimportedKey(p[i], limit)
  }

  lemma {:induction false} TransKeepsUnimported(p: Pool, clock: real, limit: int, width: real, op: Op, now: real, p': Pool)
    requires Inv(p, clock, limit, width) && clock <= now && Trans(p, op, now, p') && !op.Import? && Unimported(p, limit)
    ensures Unimported(p', limit)
  {
    hide KeyInv;
    if op.Get? && op.result.Some? {
      var i: nat :| Handed(p, p', op.excluded, now, i) && p[i].key == op.result.value;
      HandOutRecordsOnce(p, clock, limit, width, op.excluded, now, i, p');
    }
  }

  lemma {:induction false} RunKeepsUnimported(p: Pool, clock: real, limit: int, width: real, run: seq<Event>)
    requires Inv(p, clock, limit, width) && Linked(p, clock, run) && Unimported(p, limit)
    requires forall k | 0 <= k < |run| :: !run[k].op.Import?
    ensures Unimported(EndPool(p, run), limit)
    decreases |run|
  {
    hide Inv, Trans, Unimported;
    if run != [] {
      assert !run[0].op.Import?;
      TransKeepsInv(p, clock, limit, width, run[0].op, run[0].now, run[0].pool);
      TransKeepsUnimported(p, clock, limit, width, run[0].op, run[0].now, run[0].pool);
      forall k | 0 <= k < |run[1..]| ensures !run[1..][k].op.Import? {
        assert !run[k + 1].op.Import?;
      }
      RunKeepsUnimported(run[0].pool, run[0].now, limit, width, run[1..]);
    }
  }

  /** All hand-outs of the pool in a window. */
  ghost function TotalIn(p: Pool, lo: real, hi: real): nat {
    if p == [] then 0 else Window.CountIn(Window.Stamps(p[0].window.log), lo, hi) + TotalIn(p[1..], lo, hi)
  }

  lemma {:induction false} TotalBounded(p: Pool, clock: real, limit: nat, width: real, t: real)
    requires forall i | 0 <= i < |p| :: KeyInv(p[i], clock, limit, width)
    requires Unimported(p, limit)
    ensures TotalIn(p, t - width, t) <= |p| * limit
    decreases |p|
  {
    if p != [] {
      hide KeyInv, UnimportedKey, Window.CountIn, Window.Stamps;
      forall i | 0 <= i < |p[1..]| ensures KeyInv(p[1..][i], clock, limit, width) && UnimportedKey(p[1..][i], limit) {
        assert KeyInv(p[i + 1], clock, limit, width) && UnimportedKey(p[i + 1], limit);
      }
      TotalBounded(p[1..], clock, limit, width, t);
      assert KeyInv(p[0], clock, limit, width) && UnimportedKey(p[0], limit);
      OneKeyBounded(p[0], clock, limit, width, t);
      OneMore(|p|, limit);
    }
  }

  lemma {:induction false} OneMore(n: nat, limit: nat)
    requires n > 0
    ensures n * limit == (n - 1) * limit + limit
  {
  }

  lemma {:induction false} OneKeyBounded(k: KeyView, clock: real, limit: nat, width: real, t: real)
    requires KeyInv(k, clock, limit, width) && UnimportedKey(k, limit)
    ensures Window.CountIn(Window.Stamps(k.window.log), t - width, t) <= limit
  {
    hide Window.Inv;
    Window.EveryWindowBounded(k.window, clock, limit, t);
  }

  ghost predicate Untouched(p: Pool) {
    forall i | 0 <= i < |p| :: p[i].window.log == []
  }

  /** Over any run without imports from an unused pool: each key keeps its own window, and N
      keys together hand out at most N times the limit in any half-open window. */
  lemma {:induction false} PoolWindowBound(p: Pool, clock: real, limit: nat, width: real, run: seq<Event>, t: real)
    requires Inv(p, clock, limit, width) && Untouched(p) && Linked(p, clock, run)
    requires forall k | 0 <= k < |run| :: !run[k].op.Import?
    ensures forall i | 0 <= i < |p| ::
              |EndPool(p, run)| == |p| && Window.CountIn(Window.Stamps(EndPool(p, run)[i].window.log), t - width, t) <= limit
    ensures TotalIn(EndPool(p, run), t - width, t) <= |p| * limit
  {
    hide KeyInv, Linked;
    RunKeepsInv(p, clock, limit, width, run);
    RunKeepsUnimported(p, clock, limit, width, run);
    var e := EndPool(p, run);
    TotalBounded(e, EndClock(clock, run), limit, width, t);
    forall i | 0 <= i < |p| ensures Window.CountIn(Window.Stamps(e[i].window.log), t - width, t) <= limit {
      assert KeyInv(e[i], EndClock(clock, run), limit, width);
      OneKeyBounded(e[i], EndClock(clock, run), limit, width, t);
    }
  }
}
