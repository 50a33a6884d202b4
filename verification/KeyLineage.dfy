/** A credential over configuration reloads: each generation builds a fresh pool and resumes what its predecessor exported. */
module KeyLineage {
  import opened Common
  import opened KeyPool
  import Window = SlidingWindow

  /** A generation builds its pool on first use; until then it keeps what it inherited. */
  datatype Generation =
    | Serving(pool: Pool, limit: int, width: real)
    | Waiting(inherited: map<string, Snapshot>)

  datatype Act = Use(op: Op) | Reload | Build(names: seq<string>, limit: int, width: real)

  datatype Turn = Turn(act: Act, now: real, after: Generation)

  function NewPool(names: seq<string>, limit: int, width: real): Pool {
    var unique := UniqueNames(names);
    seq(|unique|, i requires 0 <= i < |unique| => FreshKey(unique, i, limit, width))
  }

  ghost predicate Exports(s: map<string, Snapshot>, p: Pool, now: real) {
    && (forall i | 0 <= i < |p| :: p[i].key in s && s[p[i].key] == SnapshotOf(p[i], now))
    && (forall n | n in s :: exists i :: 0 <= i < |p| && p[i].key == n)
  }

  /** One turn of a lineage. A reload hands on what the current generation's pool exports, if that generation has built
      its pool, and otherwise nothing. */
  ghost predicate Turns(g: Generation, act: Act, now: real, g': Generation) {
    match act
    case Use(op) => g.Serving? && !op.Import? && g'.Serving? && g' == g.(pool := g'.pool) && Trans(g.pool, op, now, g'.pool)
    case Reload => g'.Waiting? && if g.Serving? then Exports(g'.inherited, g.pool, now) else g'.inherited == map[]
    case Build(names, limit, width) =>
      && g.Waiting? && limit > 0 && width > 0.0 && g'.Serving? && g'.limit == limit && g'.width == width
      && Trans(NewPool(names, limit, width), Import(g.inherited), now, g'.pool)
  }

  ghost predicate Linked(g: Generation, clock: real, run: seq<Turn>)
    decreases |run|
  {
    run == [] || (clock <= run[0].now && run[0].now > 0.0 && Turns(g, run[0].act, run[0].now, run[0].after)
                  && Linked(run[0].after, run[0].now, run[1..]))
  }

  // ----- what every turn keeps -----

  ghost predicate SoundSnapshot(s: Snapshot, clock: real) {
    && (s.until <= clock + FAILURE_COOLDOWN || s.until <= 0.0)
    && Window.Sorted(s.sentAt) && Window.NoneLater(s.sentAt, clock)
  }

  /** Windows are sound, keys are distinct, and no hold reaches further than one cooldown ahead. */
  ghost predicate Sound(g: Generation, clock: real) {
    match g
    case Serving(pool, limit, width) => Inv(pool, clock, limit, width) && HoldsBounded(pool, clock)
    case Waiting(inherited) => forall n | n in inherited :: SoundSnapshot(inherited[n], clock)
  }

  lemma {:induction false} NewPoolInv(names: seq<string>, limit: int, width: real, clock: real)
    requires limit > 0 && width > 0.0
    ensures Inv(NewPool(names, limit, width), clock, limit, width)
    ensures forall i | 0 <= i < |NewPool(names, limit, width)| :: NewPool(names, limit, width)[i].key == UniqueNames(names)[i]
    ensures |NewPool(names, limit, width)| == |UniqueNames(names)|
  {
    hide Window.Inv, UniqueNames;
    UniqueNamesAreDistinct(names);
    Window.FreshInv(limit, width, clock);
  }

  lemma {:induction false} ExportedIsSound(k: KeyView, clock: real, limit: int, width: real, now: real)
    requires KeyInv(k, clock, limit, width) && clock <= now
    ensures SnapshotOf(k, now).sentAt == Window.After(Window.Stamps(k.window.log), now - width)
    ensures Window.Sorted(SnapshotOf(k, now).sentAt) && Window.NoneLater(SnapshotOf(k, now).sentAt, now)
  {
    hide Window.IsTail, Window.AdmissionsBounded, Window.After, Window.Stamps;
    var all := Window.Stamps(k.window.log);
    Window.EvictedDequeIsUnexpiredLog(k.window, clock, now);
    Window.AfterStaysSorted(all, now - width);
    Window.AfterIsSuffix(all, now - width);
  }

  /** Exporting, importing and every use keep the lineage sound: no import the program makes brings a longer hold. */
  lemma {:induction false} TurnKeepsSound(g: Generation, clock: real, act: Act, now: real, g': Generation)
    requires Sound(g, clock) && clock <= now && now > 0.0 && Turns(g, act, now, g')
    ensures Sound(g', now)
  {
    hide Inv, KeyInv, Trans, SnapshotOf, Window.Sorted, Window.NoneLater;
    match act {
      case Use(op) =>
        TransKeepsInv(g.pool, clock, g.limit, g.width, op, now, g'.pool);
        TransKeepsHealth(g.pool, clock, op, now, g'.pool);
      case Reload =>
        if g.Serving? {
          forall n | n in g'.inherited ensures SoundSnapshot(g'.inherited[n], now) {
            var i :| 0 <= i < |g.pool| && g.pool[i].key == n;
            ExportOneSound(g.pool, i, clock, g.limit, g.width, now);
          }
        }
      case Build(names, limit, width) =>
        NewPoolInv(names, limit, width, now);
        TransKeepsInv(NewPool(names, limit, width), now, limit, width, Import(g.inherited), now, g'.pool);
        BuildKeepsBound(g, clock, names, limit, width, now, g'.pool);
    }
  }

  lemma {:induction false} ExportOneSound(p: Pool, i: nat, clock: real, limit: int, width: real, now: real)
    requires Inv(p, clock, limit, width) && HoldsBounded(p, clock) && clock <= now && i < |p|
    ensures SoundSnapshot(SnapshotOf(p[i], now), now)
  {
    hide KeyInv, Window.Sorted, Window.NoneLater, Window.Evicted;
    assert KeyInv(p[i], clock, limit, width);
    ExportedIsSound(p[i], clock, limit, width, now);
  }

  lemma {:induction false} BuildKeepsBound(g: Generation, clock: real, names: seq<string>, limit: int, width: real, now: real, p: Pool)
    requires g.Waiting? && Sound(g, clock) && clock <= now
    requires Trans(NewPool(names, limit, width), Import(g.inherited), now, p)
    ensures HoldsBounded(p, now)
  {
    hide Window.Evicted, Window.TakenOver;
    var before := NewPool(names, limit, width);
    forall i | 0 <= i < |p| ensures p[i].until <= now + FAILURE_COOLDOWN || p[i].until <= 0.0 {
      assert before[i].until == 0.0;
    }
  }

  // ----- a key that is out stays out -----

  /** Why a key may not be handed out: it is retired, or held until some time. */
  datatype Bar = Retirement | Hold(until: real)

  predicate Bars(bar: Bar, failed: bool, until: real) {
    match bar
    case Retirement => failed
    case Hold(t) => until >= t
  }

  predicate Running(bar: Bar, now: real) {
    bar.Hold? ==> now < bar.until
  }

  /** The record of the key, in the pool or as inherited, is under the bar. */
  ghost predicate Barred(g: Generation, key: string, bar: Bar) {
    match g
    case Serving(pool, _, _) => exists i :: 0 <= i < |pool| && pool[i].key == key && Bars(bar, pool[i].failed, pool[i].until)
    case Waiting(inherited) => key in inherited && Bars(bar, inherited[key].failed, inherited[key].until)
  }

  /** The key is configured in every pool built, and no reload strikes a generation that has not built its pool. */
  predicate CarriesOver(g: Generation, act: Act, key: string) {
    && (act.Build? ==> key in act.names && key != "")
    && (act.Reload? ==> g.Serving?)
  }

  predicate HandsOut(act: Act, key: string) {
    act.Use? && act.op.Get? && act.op.result == Some(key)
  }

  /** While a hold runs or after retirement, a key is never handed out, and a turn keeps the bar in full exactly when it
      carries the key over. */
  lemma {:induction false} TurnKeepsBar(g: Generation, clock: real, act: Act, now: real, g': Generation, key: string, bar: Bar)
    requires Sound(g, clock) && clock <= now && now > 0.0 && Turns(g, act, now, g')
    requires Barred(g, key, bar) && Running(bar, now) && (bar.Hold? ==> bar.until > 0.0)
    ensures !HandsOut(act, key)
    ensures Barred(g', key, bar) <==> CarriesOver(g, act, key)
  {
    hide Inv, KeyInv, Trans;
    match act {
      case Use(op) => UseKeepsBar(g.pool, clock, op, now, g'.pool, key, bar, g);
      case Reload =>
        if g.Serving? {
          var i :| 0 <= i < |g.pool| && g.pool[i].key == key && Bars(bar, g.pool[i].failed, g.pool[i].until);
          assert g'.inherited[key] == SnapshotOf(g.pool[i], now);
        }
      case Build(names, limit, width) => BuildKeepsBar(g, names, limit, width, now, g'.pool, key, bar);
    }
  }

  lemma {:induction false} UseKeepsBar(p: Pool, clock: real, op: Op, now: real, p': Pool, key: string, bar: Bar, g: Generation)
    requires g.Serving? && g.pool == p && Sound(g, clock) && clock <= now && now > 0.0 && Trans(p, op, now, p') && !op.Import?
    requires Barred(g, key, bar) && Running(bar, now)
    ensures Barred(g.(pool := p'), key, bar)
    ensures !(op.Get? && op.result == Some(key))
  {
    hide KeyInv, Trans;
    var i :| 0 <= i < |p| && p[i].key == key && Bars(bar, p[i].failed, p[i].until);
    TransKeepsHealth(p, clock, op, now, p');
    assert p'[i].key == key && Bars(bar, p'[i].failed, p'[i].until);
  }

  lemma {:induction false} BuildKeepsBar(g: Generation, names: seq<string>, limit: int, width: real, now: real, p: Pool, key: string, bar: Bar)
    requires g.Waiting? && limit > 0 && width > 0.0 && Trans(NewPool(names, limit, width), Import(g.inherited), now, p)
    requires Barred(g, key, bar)
    ensures Barred(Serving(p, limit, width), key, bar) <==> key in names && key != ""
  {
    hide Inv, Window.Evicted, Window.TakenOver;
    var before := NewPool(names, limit, width);
    NewPoolInv(names, limit, width, now);
    UniqueNamesAreDistinct(names);
    forall i | 0 <= i < |p| ensures p[i].key == before[i].key == UniqueNames(names)[i] {
    }
    if key in names && key != "" {
      var i :| 0 <= i < |UniqueNames(names)| && UniqueNames(names)[i] == key;
      assert p[i] == Resumed(before[i], g.inherited[key], now);
      assert p[i].key == key && Bars(bar, p[i].failed, p[i].until);
    }
  }

  /** The generation before turn `n` of a run, and the clock it starts at. */
  ghost function Reached(g: Generation, run: seq<Turn>, n: nat): Generation
    requires n <= |run|
  {
    if n == 0 then g else run[n - 1].after
  }

  /** Every turn of the run carries the key over. */
  ghost predicate CarriedOver(g: Generation, run: seq<Turn>, key: string) {
    forall k | 0 <= k < |run| :: CarriesOver(Reached(g, run, k), run[k].act, key)
  }

  lemma {:induction false} CarriedRest(g: Generation, run: seq<Turn>, key: string)
    requires CarriedOver(g, run, key) && run != []
    ensures CarriesOver(g, run[0].act, key) && CarriedOver(run[0].after, run[1..], key)
  {
    hide CarriesOver;
    assert CarriesOver(Reached(g, run, 0), run[0].act, key);
    var after, rest := run[0].after, run[1..];
    forall k | 0 <= k < |rest| ensures CarriesOver(Reached(after, rest, k), rest[k].act, key) {
      assert CarriesOver(Reached(g, run, k + 1), run[k + 1].act, key);
      assert Reached(g, run, k + 1) == Reached(after, rest, k);
    }
  }

  /** Over every run of uses, reloads and rebuilt pools: while a key is retired, or held until a time not yet reached, it
      is never handed out, its retirement is kept and its hold is not shortened. */
  lemma {:induction false} KeysStayOut(g: Generation, clock: real, run: seq<Turn>, key: string, bar: Bar, n: nat)
    requires Sound(g, clock) && Linked(g, clock, run) && Barred(g, key, bar) && (bar.Hold? ==> bar.until > 0.0)
    requires CarriedOver(g, run, key)
    requires n < |run| && Running(bar, run[n].now)
    ensures !HandsOut(run[n].act, key) && Barred(run[n].after, key, bar)
    decreases n
  {
    hide Sound, Turns, Barred, CarriesOver, CarriedOver;
    var t := run[0];
    ClockGrows(g, clock, run, n);
    CarriedRest(g, run, key);
    TurnKeepsBar(g, clock, t.act, t.now, t.after, key, bar);
    if n > 0 {
      TurnKeepsSound(g, clock, t.act, t.now, t.after);
      KeysStayOut(t.after, t.now, run[1..], key, bar, n - 1);
    }
  }

  lemma {:induction false} ClockGrows(g: Generation, clock: real, run: seq<Turn>, n: nat)
    requires Linked(g, clock, run) && n < |run|
    ensures run[0].now <= run[n].now
    decreases n
  {
    hide Turns;
    if n > 0 {
      ClockGrows(run[0].after, run[0].now, run[1..], n - 1);
    }
  }

  // ----- one window over all generations -----

  /** The times at which a run hands out the key. */
  ghost function HandOuts(run: seq<Turn>, key: string): seq<real> {
    if run == [] then []
    else (if HandsOut(run[0].act, key) then [run[0].now] else []) + HandOuts(run[1..], key)
  }

  /** What the generation remembers of the key: all it recorded, or the timestamps it inherited. */
  ghost predicate Remembers(g: Generation, key: string, sent: seq<real>) {
    match g
    case Serving(pool, _, _) => exists i :: 0 <= i < |pool| && pool[i].key == key && sent == Window.Stamps(pool[i].window.log)
    case Waiting(inherited) => key in inherited && sent == inherited[key].sentAt
  }

  ghost predicate WindowsWithin(sent: seq<real>, width: real, most: nat) {
    forall t: real, lo: real | lo == t - width :: Window.CountIn(sent, lo, t) <= most
  }

  /** Of everything handed out, the generation remembers at least what is not yet expired. */
  ghost predicate Covers(g: Generation, key: string, history: seq<real>, clock: real, width: real) {
    exists sent: seq<real> :: Remembers(g, key, sent) && Window.After(sent, clock - width) == Window.After(history, clock - width)
  }

  ghost predicate SameGate(g: Generation, width: real, most: nat) {
    g.Serving? ==> g.width == width && g.limit <= most
  }

  lemma {:induction false} AfterAfter(times: seq<real>, c: real, later: real)
    requires c <= later
    ensures Window.After(Window.After(times, c), later) == Window.After(times, later)
  {
    if times != [] {
      AfterAfter(times[1..], c, later);
    }
  }

  /** Lists that agree on what is later than one cutoff agree on what is later than the next. */
  lemma {:induction false} AgreeLater(xs: seq<real>, ys: seq<real>, c: real, later: real)
    requires c <= later && Window.After(xs, c) == Window.After(ys, c)
    ensures Window.After(xs, later) == Window.After(ys, later)
  {
    AfterAfter(xs, c, later);
    AfterAfter(ys, c, later);
  }

  /** Sending once more when fewer than `most` are unexpired keeps every window within `most`. */
  lemma {:induction false} OneMoreSent(history: seq<real>, width: real, most: nat, now: real)
    requires WindowsWithin(history, width, most) && Window.NoneLater(history, now) && width > 0.0
    requires |Window.After(history, now - width)| < most
    ensures WindowsWithin(history + [now], width, most)
  {
    forall t: real, lo: real | lo == t - width ensures Window.CountIn(history + [now], lo, t) <= most {
      Window.CountAppend(history, [now], lo, t);
      assert Window.CountIn(history, lo, t) <= most;
      if now <= t {
        Window.CountIsAfter(history, now - width, t);
        Window.CountMonotone(history, now - width, t, lo, t);
      }
    }
  }

  /** What one use does to what is remembered of the key. */
  lemma {:induction false} UseRemembers(p: Pool, clock: real, limit: int, width: real, op: Op, now: real, p': Pool, i: nat)
    requires Inv(p, clock, limit, width) && clock <= now && Trans(p, op, now, p') && !op.Import? && i < |p|
    ensures i < |p'| && p'[i].key == p[i].key
    ensures var sent, sent' := Window.Stamps(p[i].window.log), Window.Stamps(p'[i].window.log);
            if HandsOut(Use(op), p[i].key) then sent' == sent + [now] && |Window.After(sent, now - width)| < limit
            else sent' == sent
  {
    hide KeyInv, Window.HeadroomAt, Window.Stamps, Window.After, Marked, Usable;
    TransKeepsInv(p, clock, limit, width, op, now, p');
    if op.Get? && op.result.Some? {
      var j: nat :| Handed(p, p', op.excluded, now, j) && p[j].key == op.result.value;
      HandedRemembers(p, clock, limit, width, op.excluded, now, j, p');
    } else if !op.Get? && !op.Look? {
      MarkedRemembers(op, p[i], now);
    }
  }

  lemma {:induction false} MarkedRemembers(op: Op, k: KeyView, now: real)
    requires op.Succeed? || op.Fail? || op.RateLimit?
    ensures Marked(op, k, now).window == k.window
  {
  }

  lemma {:induction false} HandedRemembers(p: Pool, clock: real, limit: int, width: real, excluded: set<string>, now: real, j: nat, p': Pool)
    requires Inv(p, clock, limit, width) && clock <= now && Handed(p, p', excluded, now, j)
    ensures Window.Stamps(p'[j].window.log) == Window.Stamps(p[j].window.log) + [now]
    ensures |Window.After(Window.Stamps(p[j].window.log), now - width)| < limit
  {
    HandOutRecordsOnce(p, clock, limit, width, excluded, now, j, p');
    assert KeyInv(p[j], clock, limit, width);
    Window.EvictedDequeIsUnexpiredLog(p[j].window, clock, now);
    assert Usable(p[j], excluded, now);
  }

  lemma {:induction false} UseCovers(g: Generation, clock: real, op: Op, now: real, g': Generation, key: string, history: seq<real>,
                                     width: real, most: nat)
    requires Sound(g, clock) && clock <= now && Turns(g, Use(op), now, g') && SameGate(g, width, most) && width > 0.0
    requires Covers(g, key, history, clock, width) && WindowsWithin(history, width, most) && Window.NoneLater(history, clock)
    ensures var after := history + if HandsOut(Use(op), key) then [now] else [];
            Covers(g', key, after, now, width) && WindowsWithin(after, width, most) && Window.NoneLater(after, now)
  {
    hide Inv, Trans, WindowsWithin, Window.Stamps, Window.After;
    var i :| 0 <= i < |g.pool| && g.pool[i].key == key
             && Window.After(Window.Stamps(g.pool[i].window.log), clock - width) == Window.After(history, clock - width);
    UseRemembers(g.pool, clock, g.limit, g.width, op, now, g'.pool, i);
    var sent, sent' := Window.Stamps(g.pool[i].window.log), Window.Stamps(g'.pool[i].window.log);
    AgreeLater(sent, history, clock - width, now - width);
    assert Remembers(g', key, sent');
    if HandsOut(Use(op), key) {
      OneMoreSent(history, width, most, now);
      Window.AfterAppend(sent, [now], now - width);
      Window.AfterAppend(history, [now], now - width);
    } else {
      assert history + [] == history;
    }
  }

  lemma {:induction false} ReloadCovers(g: Generation, clock: real, now: real, g': Generation, key: string, history: seq<real>, width: real)
    requires Sound(g, clock) && clock <= now && Turns(g, Reload, now, g') && g.Serving? && g.width == width
    requires Covers(g, key, history, clock, width)
    ensures Covers(g', key, history, now, width)
  {
    hide KeyInv, SnapshotOf, HoldsBounded, Window.Stamps, Window.After;
    var i :| 0 <= i < |g.pool| && g.pool[i].key == key
             && Window.After(Window.Stamps(g.pool[i].window.log), clock - width) == Window.After(history, clock - width);
    var all := Window.Stamps(g.pool[i].window.log);
    assert KeyInv(g.pool[i], clock, g.limit, width);
    ExportedIsSound(g.pool[i], clock, g.limit, width, now);
    AgreeLater(all, history, clock - width, now - width);
    AfterAfter(all, now - width, now - width);
    assert Remembers(g', key, g'.inherited[key].sentAt);
  }

  lemma {:induction false} BuildCovers(g: Generation, clock: real, names: seq<string>, limit: int, now: real, g': Generation, key: string,
                                       history: seq<real>, width: real)
    requires Sound(g, clock) && clock <= now && Turns(g, Build(names, limit, width), now, g')
    requires Covers(g, key, history, clock, width) && key in names && key != ""
    ensures Covers(g', key, history, now, width)
  {
    hide Inv, Window.Stamps, Window.After, Window.Evicted;
    var before, sent := NewPool(names, limit, width), g.inherited[key].sentAt;
    NewPoolInv(names, limit, width, now);
    UniqueNamesAreDistinct(names);
    var i :| 0 <= i < |UniqueNames(names)| && UniqueNames(names)[i] == key;
    assert g'.pool[i] == Resumed(before[i], g.inherited[key], now);
    ResumedRemembers(before[i], g.inherited[key], now);
    AgreeLater(sent, history, clock - width, now - width);
    assert Remembers(g', key, sent);
  }

  lemma {:induction false} ResumedRemembers(k: KeyView, s: Snapshot, now: real)
    requires Window.Sorted(s.sentAt)
    ensures Window.Stamps(Resumed(k, s, now).window.log) == s.sentAt && Resumed(k, s, now).key == k.key
  {
    Window.SortingSortedChangesNothing(s.sentAt);
  }

  ghost predicate BuildsWithin(run: seq<Turn>, width: real, most: nat) {
    forall k | 0 <= k < |run| && run[k].act.Build? :: run[k].act.width == width && run[k].act.limit <= most
  }

  lemma {:induction false} LinkedFirst(g: Generation, clock: real, run: seq<Turn>)
    requires Linked(g, clock, run) && run != []
    ensures clock <= run[0].now && run[0].now > 0.0 && Turns(g, run[0].act, run[0].now, run[0].after)
    ensures Linked(run[0].after, run[0].now, run[1..])
  {
  }

  lemma {:induction false} BuildsRest(run: seq<Turn>, width: real, most: nat)
    requires BuildsWithin(run, width, most) && run != []
    ensures run[0].act.Build? ==> run[0].act.width == width && run[0].act.limit <= most
    ensures BuildsWithin(run[1..], width, most)
  {
  }

  lemma {:induction false} HandOutsFirst(history: seq<real>, run: seq<Turn>, key: string)
    requires run != []
    ensures history + HandOuts(run, key)
            == history + (if HandsOut(run[0].act, key) then [run[0].now] else []) + HandOuts(run[1..], key)
  {
    hide HandsOut;
  }

  lemma {:induction false} RunKeepsWindows(g: Generation, clock: real, run: seq<Turn>, key: string, history: seq<real>,
                                           width: real, most: nat)
    requires Sound(g, clock) && Linked(g, clock, run) && SameGate(g, width, most) && width > 0.0
    requires Covers(g, key, history, clock, width) && WindowsWithin(history, width, most) && Window.NoneLater(history, clock)
    requires CarriedOver(g, run, key) && BuildsWithin(run, width, most)
    ensures WindowsWithin(history + HandOuts(run, key), width, most)
    decreases |run|
  {
    hide Sound, Covers, WindowsWithin, Window.NoneLater, Turns, CarriesOver, CarriedOver, SameGate, HandsOut;
    hide Linked, BuildsWithin;
    if run == [] {
      assert history + HandOuts(run, key) == history;
    } else {
      var t, rest := run[0], run[1..];
      var after := history + if HandsOut(t.act, key) then [t.now] else [];
      HandOutsFirst(history, run, key);
      hide HandOuts;
      LinkedFirst(g, clock, run);
      BuildsRest(run, width, most);
      CarriedRest(g, run, key);
      TurnCovers(g, clock, t, key, history, width, most);
      TurnKeepsSound(g, clock, t.act, t.now, t.after);
      RunKeepsWindows(t.after, t.now, rest, key, after, width, most);
    }
  }

  lemma {:induction false} TurnCovers(g: Generation, clock: real, t: Turn, key: string, history: seq<real>, width: real, most: nat)
    requires Sound(g, clock) && clock <= t.now && Turns(g, t.act, t.now, t.after) && SameGate(g, width, most) && width > 0.0
    requires Covers(g, key, history, clock, width) && WindowsWithin(history, width, most) && Window.NoneLater(history, clock)
    requires CarriesOver(g, t.act, key) && (t.act.Build? ==> t.act.width == width && t.act.limit <= most)
    ensures var after := history + if HandsOut(t.act, key) then [t.now] else [];
            Covers(t.after, key, after, t.now, width) && WindowsWithin(after, width, most) && Window.NoneLater(after, t.now)
            && SameGate(t.after, width, most)
  {
    hide Sound, Covers, WindowsWithin, Trans;
    assert history + [] == history;
    match t.act {
      case Use(op) => UseCovers(g, clock, op, t.now, t.after, key, history, width, most);
      case Reload => ReloadCovers(g, clock, t.now, t.after, key, history, width);
      case Build(names, limit, _) => BuildCovers(g, clock, names, limit, t.now, t.after, key, history, width);
    }
  }

  /** Over every run of uses, reloads and rebuilt pools that carries the key over, from a pool that has not used it: all
      generations together hand the key out at most `most` times in any half-open window, the largest limit configured. */
  lemma {:induction false} WindowSurvivesReloads(g: Generation, clock: real, run: seq<Turn>, key: string, i: nat, most: nat, t: real)
    requires Sound(g, clock) && Linked(g, clock, run) && g.Serving? && g.width > 0.0 && g.limit <= most
    requires i < |g.pool| && g.pool[i].key == key && g.pool[i].window.log == []
    requires CarriedOver(g, run, key)
    requires BuildsWithin(run, g.width, most)
    ensures Window.CountIn(HandOuts(run, key), t - g.width, t) <= most
  {
    hide Sound, Linked, CarriedOver;
    assert Remembers(g, key, []) by {
      assert Window.Stamps(g.pool[i].window.log) == [];
    }
    RunKeepsWindows(g, clock, run, key, [], g.width, most);
    assert [] + HandOuts(run, key) == HandOuts(run, key);
  }

  // ----- a reload that carries nothing over -----

  /** A single key, configured under the name "a". */
  function Key(failures: nat, failed: bool, until: real): KeyView {
    KeyView("a", Window.Fresh(1, 60.0), -1.0, failures, failed, until)
  }

  function Pooled(k: KeyView): Generation {
    Serving([k], 1, 60.0)
  }

  /** A key is retired by its third failure, and the configuration reloaded twice with no use in between. */
  function Revival(): (run: seq<Turn>)
    ensures |run| == 7
  {
    [ Turn(Use(Fail("a")), 1.0, Pooled(Key(1, false, 301.0))),
      Turn(Use(Fail("a")), 2.0, Pooled(Key(2, false, 302.0))),
      Turn(Use(Fail("a")), 3.0, Pooled(Key(3, true, 302.0))),
      Turn(Reload, 4.0, Waiting(map["a" := SnapshotOf(Key(3, true, 302.0), 4.0)])),
      Turn(Reload, 5.0, Waiting(map[])),
      Turn(Build(["a"], 1, 60.0), 6.0, Pooled(Key(0, false, 0.0))),
      Turn(Use(Get({}, Some("a"))), 7.0, Pooled(Granted(Key(0, false, 0.0), 7.0))) ]
  }

  ghost predicate TurnAt(g: Generation, clock: real, run: seq<Turn>, k: nat)
    requires k < |run|
  {
    && (if k == 0 then clock else run[k - 1].now) <= run[k].now && run[k].now > 0.0
    && Turns(Reached(g, run, k), run[k].act, run[k].now, run[k].after)
  }

  /** A run is linked turn by turn. */
  lemma {:induction false} LinkedByTurns(g: Generation, clock: real, run: seq<Turn>)
    requires forall k | 0 <= k < |run| :: TurnAt(g, clock, run, k)
    ensures Linked(g, clock, run)
    decreases |run|
  {
    hide Turns;
    if run != [] {
      var rest := run[1..];
      assert TurnAt(g, clock, run, 0);
      forall k | 0 <= k < |rest| ensures TurnAt(run[0].after, run[0].now, rest, k) {
        assert TurnAt(g, clock, run, k + 1);
        assert Reached(run[0].after, rest, k) == Reached(g, run, k + 1);
      }
      LinkedByTurns(run[0].after, run[0].now, rest);
    }
  }

  lemma {:induction false} FailuresRetire()
    ensures Turns(Pooled(Key(0, false, 0.0)), Use(Fail("a")), 1.0, Pooled(Key(1, false, 301.0)))
    ensures Turns(Pooled(Key(1, false, 301.0)), Use(Fail("a")), 2.0, Pooled(Key(2, false, 302.0)))
    ensures Turns(Pooled(Key(2, false, 302.0)), Use(Fail("a")), 3.0, Pooled(Key(3, true, 302.0)))
  {
  }

  lemma {:induction false} ReloadsForget()
    ensures var inherited := map["a" := SnapshotOf(Key(3, true, 302.0), 4.0)];
            && Turns(Pooled(Key(3, true, 302.0)), Reload, 4.0, Waiting(inherited))
            && Turns(Waiting(inherited), Reload, 5.0, Waiting(map[]))
    ensures Turns(Waiting(map[]), Build(["a"], 1, 60.0), 6.0, Pooled(Key(0, false, 0.0)))
    ensures NewPool(["a"], 1, 60.0) == [Key(0, false, 0.0)]
  {
    assert [Key(3, true, 302.0)][0].key == "a";
    assert ["a"][..0] == [] && UniqueNames([]) == [];
    assert UniqueNames(["a"]) == ["a"];
  }

  lemma {:induction false} NewKeyIsHandedOut()
    ensures Turns(Pooled(Key(0, false, 0.0)), Use(Get({}, Some("a"))), 7.0, Pooled(Granted(Key(0, false, 0.0), 7.0)))
  {
    var k := Key(0, false, 0.0);
    assert Chosen([k], {}, 7.0, 0);
    assert Handed([k], [Granted(k, 7.0)], {}, 7.0, 0);
  }

  /** The key is retired before turn `k` of the run, and handed out at the later turn `n`. */
  ghost predicate Revives(g: Generation, clock: real, run: seq<Turn>, key: string, k: nat, n: nat) {
    Linked(g, clock, run) && k < n < |run| && Barred(Reached(g, run, k), key, Retirement) && HandsOut(run[n].act, key)
  }

  /** From a new pool: the retired key is handed out again. */
  lemma {:induction false} SecondReloadRevives()
    ensures Revives(Serving(NewPool(["a"], 1, 60.0), 1, 60.0), 0.0, Revival(), "a", 3, 6)
  {
    hide Turns, NewPool, SnapshotOf, Granted, Linked;
    var g, run := Serving(NewPool(["a"], 1, 60.0), 1, 60.0), Revival();
    FailuresRetire();
    ReloadsForget();
    NewKeyIsHandedOut();
    forall k | 0 <= k < |run| ensures TurnAt(g, 0.0, run, k) {
    }
    LinkedByTurns(g, 0.0, run);
    assert [Key(3, true, 302.0)][0].key == "a";
  }
}
