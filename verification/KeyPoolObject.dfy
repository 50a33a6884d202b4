/** The pool object: one record and one limiter object per credential. */
module KeyPoolObject {
  import opened Common
  import opened KeyPool
  import Window = SlidingWindow

  // ----- the order in which keys are tried -----

  predicate Older(ages: seq<real>, i: nat, j: nat)
    requires i < |ages| && j < |ages|
  {
    ages[i] < ages[j] || (ages[i] == ages[j] && i < j)
  }

  function InsertByAge(ages: seq<real>, i: nat, order: seq<nat>): seq<nat>
    requires i < |ages| && forall k | 0 <= k < |order| :: order[k] < |ages|
  {
    if order == [] then [i]
    else if Older(ages, i, order[0]) then [i] + order
    else [order[0]] + InsertByAge(ages, i, order[1..])
  }

  ghost predicate Ranked(ages: seq<real>, order: seq<nat>) {
    && (forall k | 0 <= k < |order| :: order[k] < |ages|)
    && forall k, l | 0 <= k < l < |order| :: Older(ages, order[k], order[l])
  }

  lemma {:induction false} InsertByAgeRanks(ages: seq<real>, i: nat, order: seq<nat>)
    requires i < |ages| && i !in order && Ranked(ages, order)
    ensures Ranked(ages, InsertByAge(ages, i, order))
    ensures forall k :: k in InsertByAge(ages, i, order) <==> k == i || k in order
  {
    if order != [] && !Older(ages, i, order[0]) {
      var rest := order[1..];
      forall k, l | 0 <= k < l < |rest| ensures Older(ages, rest[k], rest[l]) {
        assert Older(ages, order[k + 1], order[l + 1]);
      }
      InsertByAgeRanks(ages, i, rest);
      var tail := InsertByAge(ages, i, rest);
      forall l | 0 <= l < |tail| ensures tail[l] < |ages| && Older(ages, order[0], tail[l]) {
        assert tail[l] in tail;
        if tail[l] != i {
          var m :| 0 <= m < |rest| && rest[m] == tail[l];
          assert Older(ages, order[0], order[m + 1]);
        }
      }
      assert forall k :: k in order <==> k == order[0] || k in rest;
    }
  }

  class KeyState {
    const key: string
    const limiter: Window.StrictSlidingWindowLimiter
    var lastUsed: real
    var failures: nat
    var failed: bool
    var until: real

    ghost function View(): KeyView
      reads this, limiter
    {
      KeyView(key, limiter.View(), lastUsed, failures, failed, until)
    }

    constructor (key: string, rateLimit: int, rateWindow: real, lastUsed: real, ghost now: real)
      requires rateLimit > 0 && rateWindow > 0.0
      ensures View() == KeyView(key, Window.Fresh(rateLimit, rateWindow), lastUsed, 0, false, 0.0)
      ensures fresh(limiter) && limiter.Valid() && limiter.clock == now
    {
      hide Window.Inv, Window.After, Window.CountIn;
      this.key := key;
      limiter := new Window.StrictSlidingWindowLimiter(rateLimit, rateWindow, now);
      this.lastUsed, failures, failed, until := lastUsed, 0, false, 0.0;
    }
  }

  class ApiKeyPool {
    const rateLimit: int
    const rateWindow: real
    var keys: seq<KeyState>
    ghost var model: Pool
    ghost var clock: real

    ghost predicate Valid()
      reads this, keys, set s | s in keys :: s.limiter
    {
      && Inv(model, clock, rateLimit, rateWindow)
      && rateLimit > 0 && |model| == |keys|
      && (forall i | 0 <= i < |keys| ::
            keys[i].View() == model[i] && keys[i].limiter.Valid() && keys[i].limiter.clock <= clock)
      && (forall i, j | 0 <= i < j < |keys| :: keys[i] != keys[j] && keys[i].limiter != keys[j].limiter)
    }

    /** One record per distinct non-empty name; the first configured is the longest idle. */
    constructor (names: seq<string>, rateLimit: int, rateWindow: real, ghost now: real)
      requires rateLimit > 0 && rateWindow > 0.0
      ensures Valid() && clock == now && fresh(keys)
      ensures |model| == |UniqueNames(names)|
      ensures forall i | 0 <= i < |model| :: model[i] == FreshKey(UniqueNames(names), i, rateLimit, rateWindow)
    {
      this.rateLimit := rateLimit;
      this.rateWindow := rateWindow;
      keys, model, clock := [], [], now;
      new;
      UniqueNamesAreDistinct(names);
      Populate(UniqueNames(names));
    }

    method Populate(names: seq<string>)
      requires Valid() && rateWindow > 0.0 && keys == []
      requires forall k, l | 0 <= k < l < |names| :: names[k] != names[l]
      modifies this`keys, this`model
      ensures Valid() && fresh(keys) && |model| == |names|
      ensures forall i | 0 <= i < |model| :: model[i] == FreshKey(names, i, rateLimit, rateWindow)
    {
      hide Inv;
      for i := 0 to |names|
        invariant |model| == i && Valid() && fresh(keys)
        invariant forall j | 0 <= j < i :: model[j] == FreshKey(names, j, rateLimit, rateWindow)
      {
        FreshKeyInv(model, names, i, clock, rateLimit, rateWindow);
        AddKey(names[i], -((|names| - i) as real));
      }
    }

    method AddKey(name: string, lastUsed: real)
      requires Valid() && rateWindow > 0.0
      requires Inv(model + [KeyView(name, Window.Fresh(rateLimit, rateWindow), lastUsed, 0, false, 0.0)], clock, rateLimit, rateWindow)
      modifies this`keys, this`model
      ensures Valid() && |keys| == |old(keys)| + 1 && keys[..|old(keys)|] == old(keys)
      ensures fresh(keys[|old(keys)|]) && fresh(keys[|old(keys)|].limiter)
      ensures model == old(model) + [KeyView(name, Window.Fresh(rateLimit, rateWindow), lastUsed, 0, false, 0.0)]
    {
      hide Inv, Window.Inv;
      var state := new KeyState(name, rateLimit, rateWindow, lastUsed, clock);
      keys := keys + [state];
      model := model + [KeyView(name, Window.Fresh(rateLimit, rateWindow), lastUsed, 0, false, 0.0)];
    }

    /** Each credential's state, for a replacement pool to resume. */
    method ExportState(now: real) returns (snapshot: map<string, Snapshot>)
      requires Valid() && clock <= now
      modifies this`model, this`clock, set s | s in keys :: s.limiter
      ensures Valid() && clock == now && keys == old(keys) && Trans(old(model), Look, now, model)
      ensures forall i | 0 <= i < |old(model)| ::
                old(model)[i].key in snapshot && snapshot[old(model)[i].key] == SnapshotOf(old(model)[i], now)
      ensures snapshot.Keys == KeyNames(old(model), |old(model)|)
    {
      hide Inv, Window.Inv, SnapshotOf, EvictedKey, Exported;
      LaterPool(model, clock, rateLimit, rateWindow, now);
      DistinctKeys(model, clock, rateLimit, rateWindow);
      clock := now;
      snapshot := map[];
      ghost var before := model;
      NothingExported(before, now);
      for i := 0 to |keys|
        invariant Valid() && clock == now && keys == old(keys) && AllSame(before, model, now)
        invariant forall j | i <= j < |model| :: model[j] == before[j]
        invariant Exported(snapshot, before, i, now)
      {
        var exported := ExportOne(i, now);
        OneMoreExported(snapshot, before, i, now);
        snapshot := snapshot[keys[i].key := exported];
      }
      AllExported(snapshot, before, now);
    }

    method ExportOne(i: nat, now: real) returns (exported: Snapshot)
      requires Valid() && i < |keys| && clock <= now
      modifies this`model, this`clock, keys[i].limiter
      ensures Valid() && clock == now && keys == old(keys)
      ensures model == old(model)[i := EvictedKey(old(model)[i], now)]
      ensures exported == SnapshotOf(old(model)[i], now) && keys[i].key == old(model)[i].key
    {
      hide Inv, Window.Inv;
      EvictKeepsInv(model, clock, rateLimit, rateWindow, i, now);
      var sentAt := keys[i].limiter.RecordedTimes(now);
      exported := Snapshot(sentAt, keys[i].lastUsed, keys[i].failures, keys[i].failed, keys[i].until);
      SnapshotFields(model[i], now, exported);
      model := model[i := EvictedKey(model[i], now)];
      clock := now;
    }

    /** Resumes the credentials a previous generation already used. */
    method ImportState(snapshot: map<string, Snapshot>, now: real)
      requires Valid() && clock <= now
      requires forall k | k in snapshot :: Window.NoneLater(snapshot[k].sentAt, now)
      modifies this`model, this`clock, keys, set s | s in keys :: s.limiter
      ensures Valid() && clock == now && keys == old(keys) && Trans(old(model), Import(snapshot), now, model)
    {
      hide Inv, Resumed;
      LaterPool(model, clock, rateLimit, rateWindow, now);
      clock := now;
      for i := 0 to |keys|
        invariant Valid() && clock == now && keys == old(keys) && |model| == |old(model)|
        invariant forall j | i <= j < |model| :: model[j] == old(model)[j]
        invariant forall j | 0 <= j < i ::
            model[j] == if old(model)[j].key in snapshot then Resumed(old(model)[j], snapshot[old(model)[j].key], now) else old(model)[j]
      {
        if keys[i].key in snapshot {
          ResumeKey(i, snapshot[keys[i].key], now);
        }
      }
    }

    method ResumeKey(i: nat, previous: Snapshot, now: real)
      requires Valid() && i < |keys| && clock <= now && Window.NoneLater(previous.sentAt, now)
      modifies this`model, this`clock, keys[i], keys[i].limiter
      ensures Valid() && clock == now && keys == old(keys)
      ensures model == old(model)[i := Resumed(old(model)[i], previous, now)]
    {
      hide Inv, Window.Inv, Window.Evicted, Window.TakenOver;
      ResumeKeepsInv(model, clock, rateLimit, rateWindow, i, previous, now);
      keys[i].limiter.RecordTimes(previous.sentAt, now);
      keys[i].lastUsed := previous.lastUsed;
      keys[i].failures := previous.failures;
      keys[i].failed := previous.failed;
      keys[i].until := previous.until;
      model := model[i := Resumed(model[i], previous, now)];
      clock := now;
    }

    /** Asks one key's window for room; only that window is evicted. */
    method RoomOf(i: nat, now: real) returns (room: bool)
      requires Valid() && i < |keys| && clock <= now
      modifies this`model, this`clock, keys[i].limiter
      ensures Valid() && clock == now && keys == old(keys)
      ensures model == old(model)[i := EvictedKey(old(model)[i], now)]
      ensures room == HasRoom(old(model)[i], now)
    {
      hide Inv, Window.Inv, Window.After, Window.Evicted, Window.TryAcquireAt;
      EvictKeepsInv(model, clock, rateLimit, rateWindow, i, now);
      var n := keys[i].limiter.Headroom(now);
      room := n > 0;
      model := model[i := EvictedKey(model[i], now)];
      clock := now;
    }

    method WaitOf(i: nat, now: real) returns (wait: real)
      requires Valid() && i < |keys| && clock <= now
      modifies this`model, this`clock, keys[i].limiter
      ensures Valid() && clock == now && keys == old(keys)
      ensures model == old(model)[i := EvictedKey(old(model)[i], now)]
      ensures old(model)[i].window.limit > 0 && wait == Window.NextAvailableAt(old(model)[i].window, now)
    {
      hide Inv, Window.Inv, Window.After, Window.Evicted, Window.TryAcquireAt;
      EvictKeepsInv(model, clock, rateLimit, rateWindow, i, now);
      wait := keys[i].limiter.NextAvailableIn(now);
      model := model[i := EvictedKey(model[i], now)];
      clock := now;
    }

    /** Tries to take a key; on success it becomes the most recently used. */
    method TryKey(i: nat, now: real) returns (ok: bool)
      requires Valid() && i < |keys| && clock <= now
      modifies this`model, this`clock, keys[i], keys[i].limiter
      ensures Valid() && clock == now && keys == old(keys)
      ensures ok == HasRoom(old(model)[i], now)
      ensures model == old(model)[i := if ok then Granted(old(model)[i], now) else EvictedKey(old(model)[i], now)]
    {
      hide Inv, Window.Inv, Window.Evicted, HasRoom;
      EvictKeepsInv(model, clock, rateLimit, rateWindow, i, now);
      ok := keys[i].limiter.TryAcquire(now);
      if ok {
        keys[i].lastUsed := now;
        model := model[i := Granted(model[i], now)];
      } else {
        model := model[i := EvictedKey(model[i], now)];
      }
      clock := now;
    }

    predicate IsEligible(i: nat, excluded: set<string>, now: real)
      requires i < |keys|
      reads this`keys, keys[i]
    {
      keys[i].key !in excluded && !keys[i].failed && now >= keys[i].until
    }

    method HasEligibleKey(excluded: set<string>, now: real) returns (r: bool)
      requires Valid() && clock <= now
      modifies this`model, this`clock, set s | s in keys :: s.limiter
      ensures Valid() && clock == now && keys == old(keys)
      ensures Trans(old(model), Look, now, model)
      ensures r <==> AnyUsable(old(model), excluded, now)
    {
      hide Inv, Window.Inv, EvictedKey, HasRoom;
      LaterPool(model, clock, rateLimit, rateWindow, now);
      clock := now;
      ghost var before := model;
      for i := 0 to |keys|
        invariant Valid() && clock == now && keys == old(keys) && AllSame(before, model, now)
        invariant forall j | i <= j < |model| :: model[j] == before[j]
        invariant forall j | 0 <= j < i :: !Usable(before[j], excluded, now)
      {
        if IsEligible(i, excluded, now) {
          var room := RoomOf(i, now);
          if room {
            assert Usable(before[i], excluded, now);
            return true;
          }
        }
      }
      r := false;
    }

    method NextAvailableIn(excluded: set<string>, now: real) returns (r: Option<real>)
      requires Valid() && clock <= now
      modifies this`model, this`clock, set s | s in keys :: s.limiter
      ensures Valid() && clock == now && keys == old(keys)
      ensures Trans(old(model), Look, now, model)
      ensures forall i | 0 <= i < |old(model)| :: old(model)[i].window.limit > 0
      ensures r == ShortestWait(old(model), excluded, now)
    {
      hide Inv, Window.Inv, Window.NextAvailableAt, EvictedKey, ShortestWait, ShorterWait;
      LaterPool(model, clock, rateLimit, rateWindow, now);
      NoWaits(model, excluded, now);
      PositiveLimits(model, clock, rateLimit, rateWindow);
      clock := now;
      ghost var before := model;
      r := None;
      var i := |keys|;
      while i > 0
        invariant 0 <= i <= |keys|
        invariant Valid() && clock == now && keys == old(keys) && AllSame(before, model, now)
        invariant forall j | 0 <= j < i :: model[j] == before[j]
        invariant forall j | 0 <= j < |before| :: before[j].window.limit > 0
        invariant r == ShortestWait(before[i..], excluded, now)
      {
        i := i - 1;
        OneMoreWait(before, i, excluded, now);
        r := WaitWith(i, excluded, now, r);
      }
      assert before[0..] == before;
    }

    /** The shortest wait so far and this key's, if it is eligible. */
    method WaitWith(i: nat, excluded: set<string>, now: real, rest: Option<real>) returns (r: Option<real>)
      requires Valid() && i < |keys| && clock == now
      modifies this`model, this`clock, keys[i].limiter
      ensures Valid() && clock == now && keys == old(keys) && |model| == |old(model)|
      ensures forall j | 0 <= j < |model| && j != i :: model[j] == old(model)[j]
      ensures SameUpToEviction(old(model)[i], model[i], now)
      ensures old(model)[i].window.limit > 0 && r == ShorterWait(old(model)[i], excluded, now, rest)
    {
      hide Inv, Window.Inv, Window.NextAvailableAt, EvictedKey;
      PositiveLimits(model, clock, rateLimit, rateWindow);
      r := rest;
      if IsEligible(i, excluded, now) {
        var wait := WaitOf(i, now);
        if rest.None? || wait <= rest.value {
          r := Some(wait);
        }
      }
    }

    /** The eligible keys, longest idle first. */
    method Rank(excluded: set<string>, now: real) returns (order: seq<nat>, ghost ages: seq<real>)
      requires Valid()
      ensures |ages| == |keys| && (forall i | 0 <= i < |keys| :: ages[i] == keys[i].lastUsed)
      ensures Ranked(ages, order)
      ensures forall i: nat :: i in order <==> i < |keys| && IsEligible(i, excluded, now)
    {
      var all := seq(|keys|, i requires 0 <= i < |keys| reads this, keys => keys[i].lastUsed);
      ages := all;
      order := [];
      for i := 0 to |keys|
        invariant Ranked(ages, order)
        invariant forall k: nat :: k in order <==> k < i && IsEligible(k, excluded, now)
      {
        if IsEligible(i, excluded, now) {
          InsertByAgeRanks(all, i, order);
          order := InsertByAge(all, i, order);
        }
      }
    }

    /** Tries keys in the given order until one has room. */
    method TryInOrder(order: seq<nat>, now: real) returns (at: nat)
      requires Valid() && clock <= now
      requires forall n | 0 <= n < |order| :: order[n] < |keys|
      requires forall m, n | 0 <= m < n < |order| :: order[m] != order[n]
      modifies this`model, this`clock, keys, set s | s in keys :: s.limiter
      ensures Valid() && keys == old(keys) && at <= |order| && clock <= now
      ensures forall m | 0 <= m < at :: !HasRoom(old(model)[order[m]], now)
      ensures |model| == |old(model)|
      ensures forall j | 0 <= j < |model| && (at == |order| || j != order[at]) ::
                SameUpToEviction(old(model)[j], model[j], now)
      ensures at < |order| ==> HasRoom(old(model)[order[at]], now) && model[order[at]] == Granted(old(model)[order[at]], now)
    {
      hide Inv, Window.Inv, Granted, EvictedKey, HasRoom;
      at := 0;
      while at < |order|
        invariant at <= |order| && Valid() && keys == old(keys) && clock <= now && |model| == |old(model)|
        invariant forall m | 0 <= m < at :: !HasRoom(old(model)[order[m]], now)
        invariant forall j | 0 <= j < |model| :: SameUpToEviction(old(model)[j], model[j], now)
        invariant forall n | at <= n < |order| :: model[order[n]] == old(model)[order[n]]
      {
        var ok := TryKey(order[at], now);
        if ok {
          return;
        }
        at := at + 1;
      }
    }

    /** Reserves the longest-idle key that has room now. */
    method GetNextKey(excluded: set<string>, now: real) returns (r: Option<string>)
      requires Valid() && clock <= now
      modifies this`model, this`clock, keys, set s | s in keys :: s.limiter
      ensures Valid() && clock == now && keys == old(keys)
      ensures Trans(old(model), Get(excluded, r), now, model)
    {
      hide Inv, Window.Inv, Granted, HasRoom;
      ghost var before := model;
      var order, ages := Rank(excluded, now);
      forall n | 0 <= n < |order| ensures order[n] < |keys| {
        assert order[n] in order;
      }
      forall m, n | 0 <= m < n < |order| ensures order[m] != order[n] {
        assert Older(ages, order[m], order[n]);
      }
      var at := TryInOrder(order, now);
      LaterPool(model, clock, rateLimit, rateWindow, now);
      clock := now;
      if at < |order| {
        LeastRecentlyUsed(before, ages, order, at, excluded, now);
        assert Handed(before, model, excluded, now, order[at]);
        GrantKeepsKey(before[order[at]], now);
        return Some(keys[order[at]].key);
      }
      forall j: nat | j < |before| ensures !Usable(before[j], excluded, now) {
        if Eligible(before[j], excluded, now) {
          assert j in order;
          var m :| 0 <= m < |order| && order[m] == j;
        }
      }
      r := None;
    }

    method Find(key: string) returns (i: nat)
      requires Valid()
      ensures i <= |keys| && (i < |keys| ==> keys[i].key == key)
      ensures i == |keys| ==> forall j | 0 <= j < |keys| :: keys[j].key != key
    {
      i := 0;
      while i < |keys| && keys[i].key != key
        invariant i <= |keys| && forall j | 0 <= j < i :: keys[j].key != key
      {
        i := i + 1;
      }
    }

    /** Ends a failure streak, and a hold that has run out. */
    method MarkSucceeded(key: string, now: real)
      requires Valid() && clock <= now
      modifies this`model, this`clock, keys
      ensures Valid() && clock == now && keys == old(keys) && Trans(old(model), Succeed(key), now, model)
    {
      hide Inv, Window.Inv, Trans;
      var i := Find(key);
      MarkKeepsInv(model, clock, rateLimit, rateWindow, Succeed(key), now, i);
      clock := now;
      if i < |keys| {
        var state := keys[i];
        state.failures := 0;
        if state.until != 0.0 && now >= state.until {
          state.until := 0.0;
        }
        model := model[i := Succeeded(model[i], now)];
      }
    }

    /** Holds a failing key for a while, and retires it for good at the third failure. */
    method MarkFailed(key: string, now: real)
      requires Valid() && clock <= now
      modifies this`model, this`clock, keys
      ensures Valid() && clock == now && keys == old(keys) && Trans(old(model), Fail(key), now, model)
    {
      hide Inv, Window.Inv, Trans;
      var i := Find(key);
      MarkKeepsInv(model, clock, rateLimit, rateWindow, Fail(key), now, i);
      clock := now;
      if i < |keys| {
        var state := keys[i];
        state.failures := state.failures + 1;
        if state.failures >= MAX_CONSECUTIVE_FAILURES {
          state.failed := true;
        } else {
          state.until := now + FAILURE_COOLDOWN;
        }
        model := model[i := FailedOnce(model[i], now)];
      }
    }

    /** Holds a key after an upstream 429, never shortening a running hold. */
    method MarkRateLimited(key: string, now: real)
      requires Valid() && clock <= now
      modifies this`model, this`clock, keys
      ensures Valid() && clock == now && keys == old(keys) && Trans(old(model), RateLimit(key), now, model)
    {
      hide Inv, Window.Inv, Trans;
      var i := Find(key);
      MarkKeepsInv(model, clock, rateLimit, rateWindow, RateLimit(key), now, i);
      clock := now;
      if i < |keys| {
        var state := keys[i];
        if state.until < now + RATE_LIMIT_COOLDOWN {
          state.until := now + RATE_LIMIT_COOLDOWN;
        }
        model := model[i := RateLimited(model[i], now)];
      }
    }
  }

  // ----- facts about the model -----

  lemma {:induction false} LaterPool(p: Pool, clock: real, limit: int, width: real, now: real)
    requires Inv(p, clock, limit, width) && clock <= now
    ensures Inv(p, now, limit, width)
  {
    hide KeyInv;
    forall i | 0 <= i < |p| ensures KeyInv(p[i], now, limit, width) {
      assert KeyInv(p[i], clock, limit, width);
      LaterKey(p[i], clock, limit, width, now);
    }
  }

  ghost function KeyNames(p: Pool, n: nat): set<string>
    requires n <= |p|
  {
    if n == 0 then {} else KeyNames(p, n - 1) + {p[n - 1].key}
  }

  ghost predicate Exported(snapshot: map<string, Snapshot>, p: Pool, n: nat, now: real)
    requires n <= |p|
  {
    && snapshot.Keys == KeyNames(p, n)
    && forall j | 0 <= j < n :: p[j].key in snapshot && snapshot[p[j].key] == SnapshotOf(p[j], now)
  }

  lemma {:induction false} NothingExported(p: Pool, now: real)
    ensures Exported(map[], p, 0, now)
  {
  }

  lemma {:induction false} OneMoreExported(snapshot: map<string, Snapshot>, p: Pool, n: nat, now: real)
    requires n < |p| && Exported(snapshot, p, n, now)
    requires forall i, j | 0 <= i < j < |p| :: p[i].key != p[j].key
    ensures Exported(snapshot[p[n].key := SnapshotOf(p[n], now)], p, n + 1, now)
  {
    hide SnapshotOf;
  }

  lemma {:induction false} AllExported(snapshot: map<string, Snapshot>, p: Pool, now: real)
    requires Exported(snapshot, p, |p|, now)
    ensures forall i | 0 <= i < |p| :: p[i].key in snapshot && snapshot[p[i].key] == SnapshotOf(p[i], now)
    ensures snapshot.Keys == KeyNames(p, |p|)
  {
    hide SnapshotOf;
  }

  lemma {:induction false} SnapshotFields(k: KeyView, now: real, s: Snapshot)
    requires s.sentAt == Window.Evicted(k.window, now).times && s.lastUsed == EvictedKey(k, now).lastUsed
    requires s.failures == EvictedKey(k, now).failures && s.failed == EvictedKey(k, now).failed && s.until == EvictedKey(k, now).until
    ensures s == SnapshotOf(k, now) && EvictedKey(k, now).key == k.key
  {
  }

  lemma {:induction false} DistinctKeys(p: Pool, clock: real, limit: int, width: real)
    requires Inv(p, clock, limit, width)
    ensures forall i, j | 0 <= i < j < |p| :: p[i].key != p[j].key
  {
  }

  lemma {:induction false} FreshKeyInv(p: Pool, names: seq<string>, i: nat, now: real, limit: int, width: real)
    requires Inv(p, now, limit, width) && |p| == i < |names| && limit > 0 && width > 0.0
    requires forall k, l | 0 <= k < l < |names| :: names[k] != names[l]
    requires forall j | 0 <= j < i :: p[j] == FreshKey(names, j, limit, width)
    ensures Inv(p + [FreshKey(names, i, limit, width)], now, limit, width)
  {
    hide Window.Inv;
    Window.FreshInv(limit, width, now);
  }

  lemma {:induction false} ResumeKeepsInv(p: Pool, clock: real, limit: int, width: real, i: nat, s: Snapshot, now: real)
    requires Inv(p, clock, limit, width) && clock <= now && i < |p| && Window.NoneLater(s.sentAt, now)
    ensures Inv(p[i := Resumed(p[i], s, now)], now, limit, width)
  {
    hide KeyInv;
    assert KeyInv(p[i], clock, limit, width);
    LaterPool(p, clock, limit, width, now);
    ResumedKey(p[i], clock, limit, width, s, now);
    assert Resumed(p[i], s, now).key == p[i].key;
  }

  lemma {:induction false} PositiveLimits(p: Pool, clock: real, limit: int, width: real)
    requires Inv(p, clock, limit, width)
    ensures forall i | 0 <= i < |p| :: p[i].window.limit > 0
  {
    forall i | 0 <= i < |p| ensures p[i].window.limit > 0 {
      assert KeyInv(p[i], clock, limit, width);
    }
  }

  lemma {:induction false} NoWaits(p: Pool, excluded: set<string>, now: real)
    ensures ShortestWait(p[|p|..], excluded, now) == None
  {
  }

  lemma {:induction false} OneMoreWait(p: Pool, i: nat, excluded: set<string>, now: real)
    requires i < |p| && forall j | 0 <= j < |p| :: p[j].window.limit > 0
    ensures ShortestWait(p[i..], excluded, now) == ShorterWait(p[i], excluded, now, ShortestWait(p[i + 1..], excluded, now))
  {
    hide Window.NextAvailableAt;
    assert p[i..][1..] == p[i + 1..];
  }

  lemma {:induction false} EvictKeepsInv(p: Pool, clock: real, limit: int, width: real, i: nat, now: real)
    requires Inv(p, clock, limit, width) && clock <= now && i < |p|
    ensures p[i].window.limit > 0
    ensures Inv(p[i := EvictedKey(p[i], now)], now, limit, width)
    ensures Inv(p[i := Granted(p[i], now)], now, limit, width)
    ensures HasRoom(p[i], now) <==> Window.TryAcquireAt(p[i].window, now).1
    ensures !HasRoom(p[i], now) ==> Window.TryAcquireAt(p[i].window, now).0 == Window.Evicted(p[i].window, now)
  {
    hide KeyInv;
    assert KeyInv(p[i], clock, limit, width);
    RoomMeansNoWait(p[i], clock, limit, width, now);
    LaterPool(p, clock, limit, width, now);
    LaterKey(p[i], clock, limit, width, now);
    assert Granted(p[i], now).key == EvictedKey(p[i], now).key == p[i].key;
  }

  lemma {:induction false} MarkKeepsInv(p: Pool, clock: real, limit: int, width: real, op: Op, now: real, i: nat)
    requires Inv(p, clock, limit, width) && clock <= now && i <= |p| && (op.Succeed? || op.Fail? || op.RateLimit?)
    requires i < |p| ==> p[i].key == op.key
    requires i == |p| ==> forall j | 0 <= j < |p| :: p[j].key != op.key
    ensures var p' := if i < |p| then p[i := Marked(op, p[i], now)] else p;
            Inv(p', now, limit, width) && Trans(p, op, now, p')
  {
    hide KeyInv;
    LaterPool(p, clock, limit, width, now);
    if i < |p| {
      assert KeyInv(p[i], now, limit, width);
      MarkedKey(op, p[i], limit, width, now);
      forall j | 0 <= j < |p| && j != i ensures p[j].key != op.key {
      }
    }
  }

  /** The first key in rank order with room is the one to hand out. */
  lemma {:induction false} LeastRecentlyUsed(p: Pool, ages: seq<real>, order: seq<nat>, n: nat, excluded: set<string>, now: real)
    requires Ranked(ages, order) && |ages| == |p| && n < |order|
    requires forall i | 0 <= i < |p| :: ages[i] == p[i].lastUsed
    requires forall i: nat :: i in order <==> i < |p| && Eligible(p[i], excluded, now)
    requires HasRoom(p[order[n]], now) && forall m | 0 <= m < n :: !HasRoom(p[order[m]], now)
    ensures Chosen(p, excluded, now, order[n])
  {
    assert order[n] in order;
    forall j | 0 <= j < |p| && Usable(p[j], excluded, now) && j != order[n] ensures Before(p, order[n], j) {
      assert j in order;
      var m :| 0 <= m < |order| && order[m] == j;
      assert m > n && Older(ages, order[n], order[m]);
    }
  }
}
