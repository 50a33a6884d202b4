/** The strict sliding-window limiter: a deque of timestamps that refines the full
    acquisition log.  Time is a real number read from a clock that never goes back. */
module SlidingWindow {

  /** One entry of the full log: an admission with the limit then in force, or a
      timestamp taken over from a predecessor limiter, which no limit vouches for. */
  datatype Stamp = Admission(at: real, limit: int) | Takeover(at: real)

  /** `times` is the deque the program keeps; `log` is everything ever recorded. */
  datatype Window = Window(limit: int, width: real, times: seq<real>, log: seq<Stamp>)

  datatype PassResult = Admitted | Refused | Retry(wait: real)

  // ----- sorted timestamps -----

  ghost predicate Sorted(times: seq<real>) {
    forall i, j | 0 <= i < j < |times| :: times[i] <= times[j]
  }

  /** The timestamps later than `cutoff`, in order. */
  function After(times: seq<real>, cutoff: real): seq<real> {
    if times == [] then []
    else if times[0] > cutoff then [times[0]] + After(times[1..], cutoff)
    else After(times[1..], cutoff)
  }

  /** How many timestamps lie in the half-open interval (lo, hi]. */
  function CountIn(times: seq<real>, lo: real, hi: real): nat {
    if times == [] then 0
    else CountIn(times[1..], lo, hi) + if lo < times[0] <= hi then 1 else 0
  }

  function Insert(t: real, times: seq<real>): seq<real> {
    if times == [] then [t]
    else if t < times[0] then [t] + times
    else [times[0]] + Insert(t, times[1..])
  }

  lemma {:induction false} InsertKeepsElements(t: real, times: seq<real>)
    ensures multiset(Insert(t, times)) == multiset(times) + multiset{t}
  {
    if times != [] && t >= times[0] {
      InsertKeepsElements(t, times[1..]);
      assert times == [times[0]] + times[1..];
    }
  }

  /** The head of an insertion is the new element or the old head. */
  lemma {:induction false} InsertSorted(t: real, times: seq<real>)
    requires Sorted(times)
    ensures Sorted(Insert(t, times))
    ensures Insert(t, times)[0] == if times == [] || t < times[0] then t else times[0]
  {
    if times != [] && t >= times[0] {
      InsertSorted(t, times[1..]);
    }
  }

  function SortTimes(times: seq<real>): seq<real> {
    if times == [] then [] else Insert(times[0], SortTimes(times[1..]))
  }

  lemma {:induction false} SortTimesSorts(times: seq<real>)
    ensures Sorted(SortTimes(times)) && multiset(SortTimes(times)) == multiset(times)
  {
    if times != [] {
      SortTimesSorts(times[1..]);
      InsertSorted(times[0], SortTimes(times[1..]));
      InsertKeepsElements(times[0], SortTimes(times[1..]));
      assert times == [times[0]] + times[1..];
    }
  }

  lemma {:induction false} InsertAtFront(t: real, times: seq<real>)
    requires forall i | 0 <= i < |times| :: t <= times[i]
    ensures Insert(t, times) == [t] + times
  {
    if times != [] && t >= times[0] {
      InsertAtFront(t, times[1..]);
    }
  }

  lemma {:induction false} SortingSortedChangesNothing(times: seq<real>)
    requires Sorted(times)
    ensures SortTimes(times) == times
  {
    if times != [] {
      SortingSortedChangesNothing(times[1..]);
      InsertAtFront(times[0], times[1..]);
    }
  }

  lemma {:induction false} AfterKeepsAll(times: seq<real>, cutoff: real)
    requires forall i | 0 <= i < |times| :: times[i] > cutoff
    ensures After(times, cutoff) == times
  {
    if times != [] {
      AfterKeepsAll(times[1..], cutoff);
    }
  }

  lemma {:induction false} AfterDropsAll(times: seq<real>, cutoff: real)
    requires forall i | 0 <= i < |times| :: times[i] <= cutoff
    ensures After(times, cutoff) == []
  {
    if times != [] {
      AfterDropsAll(times[1..], cutoff);
    }
  }

  lemma {:induction false} AfterAppend(a: seq<real>, b: seq<real>, cutoff: real)
    ensures After(a + b, cutoff) == After(a, cutoff) + After(b, cutoff)
  {
    if a == [] {
      assert a + b == b;
    } else {
      assert (a + b)[1..] == a[1..] + b;
      AfterAppend(a[1..], b, cutoff);
    }
  }

  /** On a sorted deque, keeping what is later than the cutoff keeps a suffix. */
  lemma {:induction false} AfterIsSuffix(times: seq<real>, cutoff: real)
    requires Sorted(times)
    ensures var n := |After(times, cutoff)|;
            n <= |times| && After(times, cutoff) == times[|times| - n..]
            && (forall i | 0 <= i < |times| - n :: times[i] <= cutoff)
            && (forall i | |times| - n <= i < |times| :: times[i] > cutoff)
  {
    if times != [] {
      if times[0] > cutoff {
        AfterKeepsAll(times, cutoff);
      } else {
        AfterIsSuffix(times[1..], cutoff);
        var n := |After(times[1..], cutoff)|;
        assert times[1..][|times| - 1 - n..] == times[|times| - n..];
        forall i | 0 <= i < |times| - n ensures times[i] <= cutoff {
          if i > 0 { assert times[i] == times[1..][i - 1]; }
        }
        forall i | |times| - n <= i < |times| ensures times[i] > cutoff {
          assert times[i] == times[1..][i - 1];
        }
      }
    }
  }

  lemma {:induction false} AfterStaysSorted(times: seq<real>, cutoff: real)
    requires Sorted(times)
    ensures Sorted(After(times, cutoff))
    ensures forall i | 0 <= i < |After(times, cutoff)| :: After(times, cutoff)[i] > cutoff
  {
    AfterIsSuffix(times, cutoff);
  }

  lemma {:induction false} CountAppend(a: seq<real>, b: seq<real>, lo: real, hi: real)
    ensures CountIn(a + b, lo, hi) == CountIn(a, lo, hi) + CountIn(b, lo, hi)
  {
    if a == [] {
      assert a + b == b;
    } else {
      assert (a + b)[1..] == a[1..] + b;
      CountAppend(a[1..], b, lo, hi);
    }
  }

  lemma {:induction false} CountNone(times: seq<real>, lo: real, hi: real)
    requires forall i | 0 <= i < |times| :: times[i] <= lo || hi < times[i]
    ensures CountIn(times, lo, hi) == 0
  {
    if times != [] {
      CountNone(times[1..], lo, hi);
    }
  }

  /** Narrowing the interval never counts more. */
  lemma {:induction false} CountMonotone(times: seq<real>, lo: real, hi: real, lo': real, hi': real)
    requires lo <= lo' && hi' <= hi
    ensures CountIn(times, lo', hi') <= CountIn(times, lo, hi)
  {
    if times != [] {
      CountMonotone(times[1..], lo, hi, lo', hi');
    }
  }

  /** Raising the upper end past every timestamp counts what `After` keeps. */
  lemma {:induction false} CountIsAfter(times: seq<real>, lo: real, hi: real)
    requires forall i | 0 <= i < |times| :: times[i] <= hi
    ensures CountIn(times, lo, hi) == |After(times, lo)|
  {
    if times != [] {
      CountIsAfter(times[1..], lo, hi);
    }
  }

  lemma {:induction false} CountUpToLast(times: seq<real>, lo: real, hi: real, last: real)
    requires last <= hi && Sorted(times) && times != [] && times[|times| - 1] == last
    ensures CountIn(times, lo, hi) == CountIn(times, lo, last)
  {
    CountIsAfter(times, lo, hi);
    CountIsAfter(times, lo, last);
  }

  /** Only the prefix up to the last timestamp in the interval matters. */
  lemma {:induction false} CountPrefix(all: seq<real>, j: nat, lo: real, hi: real)
    requires Sorted(all) && j < |all| && all[j] <= hi
    requires forall i | j < i < |all| :: all[i] > hi
    ensures CountIn(all, lo, hi) == CountIn(all[..j + 1], lo, all[j])
  {
    assert all == all[..j + 1] + all[j + 1..];
    CountAppend(all[..j + 1], all[j + 1..], lo, hi);
    CountNone(all[j + 1..], lo, hi);
    CountUpToLast(all[..j + 1], lo, hi, all[j]);
  }

  // ----- the operations, on values -----

  function Stamps(log: seq<Stamp>): (r: seq<real>)
    ensures |r| == |log| && forall i | 0 <= i < |log| :: r[i] == log[i].at
  {
    seq(|log|, i requires 0 <= i < |log| => log[i].at)
  }

  function Fresh(limit: int, width: real): Window {
    Window(limit, width, [], [])
  }

  function Evicted(w: Window, now: real): Window {
    w.(times := After(w.times, now - w.width))
  }

  function Record(w: Window, at: real): Window {
    w.(times := w.times + [at], log := w.log + [Admission(at, w.limit)])
  }

  /** What `try_acquire` does at `now`. */
  function TryAcquireAt(w: Window, now: real): (Window, bool) {
    var e := Evicted(w, now);
    if |e.times| >= e.limit then (e, false) else (Record(e, now), true)
  }

  /** Seconds until a slot frees up, as `next_available_in` computes it. */
  function NextAvailableAt(w: Window, now: real): (wait: real)
    requires w.limit > 0
  {
    var times := After(w.times, now - w.width);
    if |times| < w.limit then 0.0
    else
      var wait := times[|times| - w.limit] + w.width - now;
      if wait < 0.0 then 0.0 else wait
  }

  /** One lock-protected pass of the waiting loop.  The clock is read twice: `now` for
      eviction and `stamp` for the recorded time; `allowed` is what the caller's
      condition answers at admission (true when there is none). */
  function PassAt(w: Window, now: real, stamp: real, allowed: bool): (Window, PassResult)
    requires w.limit > 0
  {
    var e := Evicted(w, now);
    if |e.times| < e.limit then
      if !allowed then (e, Refused) else (Record(e, stamp), Admitted)
    else (e, Retry(NextAvailableAt(w, now)))
  }

  function HeadroomAt(w: Window, now: real): int {
    var e := Evicted(w, now);
    if e.limit < |e.times| then 0 else e.limit - |e.times|
  }

  // ----- the invariant -----

  /** `times` is the end of `all`, and everything before it is no later than `cutoff`. */
  ghost predicate IsTail(times: seq<real>, all: seq<real>, cutoff: real) {
    && |times| <= |all|
    && times == all[|all| - |times|..]
    && forall i | 0 <= i < |all| - |times| :: all[i] <= cutoff
  }

  ghost predicate NoneLater(all: seq<real>, clock: real) {
    forall i | 0 <= i < |all| :: all[i] <= clock
  }

  /** Every admission saw, in the window ending at its own time, at most the limit then
      in force, itself included. */
  ghost predicate AdmissionsBounded(log: seq<Stamp>, width: real) {
    forall j | 0 <= j < |log| && log[j].Admission? ::
      CountIn(Stamps(log[..j + 1]), log[j].at - width, log[j].at) <= log[j].limit
  }

  ghost predicate Inv(w: Window, clock: real) {
    && w.limit > 0 && w.width > 0.0
    && Sorted(Stamps(w.log))
    && NoneLater(Stamps(w.log), clock)
    && IsTail(w.times, Stamps(w.log), clock - w.width)
    && AdmissionsBounded(w.log, w.width)
  }

  lemma {:induction false} FreshInv(limit: int, width: real, clock: real)
    requires limit > 0 && width > 0.0
    ensures Inv(Fresh(limit, width), clock)
  {
  }

  lemma {:induction false} InvPositive(w: Window, clock: real)
    requires Inv(w, clock)
    ensures w.limit > 0 && w.width > 0.0
  {
  }

  lemma {:induction false} TailOfTail(times: seq<real>, all: seq<real>, c0: real, c1: real)
    requires Sorted(all) && IsTail(times, all, c0) && c0 <= c1
    ensures After(times, c1) == After(all, c1)
    ensures IsTail(After(times, c1), all, c1)
  {
    var d := |all| - |times|;
    assert all == all[..d] + times;
    AfterDropsAll(all[..d], c1);
    AfterAppend(all[..d], times, c1);
    AfterIsSuffix(all, c1);
  }

  lemma {:induction false} LaterNoneLater(all: seq<real>, clock: real, now: real)
    requires NoneLater(all, clock) && clock <= now
    ensures NoneLater(all, now)
  {
  }

  /** The deque, once evicted at `now`, is exactly the unexpired part of the log. */
  lemma {:induction false} EvictedDequeIsUnexpiredLog(w: Window, clock: real, now: real)
    requires Inv(w, clock) && clock <= now
    ensures Evicted(w, now).times == After(Stamps(w.log), now - w.width)
    ensures Inv(Evicted(w, now), now)
  {
    hide Sorted, IsTail, AdmissionsBounded, After, Stamps;
    LaterNoneLater(Stamps(w.log), clock, now);
    TailOfTail(w.times, Stamps(w.log), clock - w.width, now - w.width);
  }

  lemma {:induction false} AppendBounded(log: seq<Stamp>, width: real, now: real, stamp: Stamp)
    requires AdmissionsBounded(log, width) && NoneLater(Stamps(log), now) && now <= stamp.at && width > 0.0
    requires stamp.Admission? && |After(Stamps(log), now - width)| < stamp.limit
    ensures AdmissionsBounded(log + [stamp], width)
  {
    var more := log + [stamp];
    forall j | 0 <= j < |more| && more[j].Admission?
      ensures CountIn(Stamps(more[..j + 1]), more[j].at - width, more[j].at) <= more[j].limit
    {
      if j < |log| {
        assert more[..j + 1] == log[..j + 1];
      } else {
        assert more[..j + 1] == more;
        assert Stamps(more) == Stamps(log) + [stamp.at];
        CountAppend(Stamps(log), [stamp.at], stamp.at - width, stamp.at);
        CountIsAfter(Stamps(log), now - width, stamp.at);
        CountMonotone(Stamps(log), now - width, stamp.at, stamp.at - width, stamp.at);
      }
    }
  }

  lemma {:induction false} AppendTail(times: seq<real>, all: seq<real>, c0: real, c1: real, at: real)
    requires IsTail(times, all, c0) && c0 <= c1
    ensures IsTail(times + [at], all + [at], c1)
  {
  }

  lemma {:induction false} AppendSorted(all: seq<real>, clock: real, at: real)
    requires Sorted(all) && NoneLater(all, clock) && clock <= at
    ensures Sorted(all + [at]) && NoneLater(all + [at], at)
  {
  }

  /** Recording right after an eviction that left room keeps everything. */
  lemma {:induction false} RecordKeepsInv(w: Window, now: real, stamp: real)
    requires Inv(w, now) && w.times == After(Stamps(w.log), now - w.width)
    requires |w.times| < w.limit && now <= stamp
    ensures Inv(Record(w, stamp), stamp)
  {
    AppendBounded(w.log, w.width, now, Admission(stamp, w.limit));
    AppendTail(w.times, Stamps(w.log), now - w.width, stamp - w.width, stamp);
    AppendSorted(Stamps(w.log), now, stamp);
    assert Stamps(Record(w, stamp).log) == Stamps(w.log) + [stamp];
  }

  lemma {:induction false} SameElementsNoneLater(times: seq<real>, sorted: seq<real>, now: real)
    requires NoneLater(times, now) && multiset(sorted) == multiset(times)
    ensures NoneLater(sorted, now)
  {
    forall i | 0 <= i < |sorted| ensures sorted[i] <= now {
      assert sorted[i] in multiset(times);
    }
  }

  function Takeovers(sorted: seq<real>): (log: seq<Stamp>)
    ensures Stamps(log) == sorted && forall i | 0 <= i < |log| :: log[i].Takeover?
  {
    seq(|sorted|, i requires 0 <= i < |sorted| => Takeover(sorted[i]))
  }

  /** `record_times` forgets what it had and takes over a predecessor's timestamps. */
  function TakenOver(w: Window, times: seq<real>): Window {
    var sorted := SortTimes(times);
    w.(times := sorted, log := Takeovers(sorted))
  }

  lemma {:induction false} TakenOverInv(w: Window, times: seq<real>, now: real)
    requires w.limit > 0 && w.width > 0.0 && NoneLater(times, now)
    ensures Inv(TakenOver(w, times), now)
  {
    SortTimesSorts(times);
    SameElementsNoneLater(times, SortTimes(times), now);
  }

  // ----- runs -----

  /** The operations a limiter's owners interleave, each with the clock it reads. */
  datatype Op =
    | Try(now: real)
    | Pass(now: real, stamp: real, allowed: bool)
    | Inspect(now: real)
    | Retune(now: real, limit: int)
    | Import(now: real, times: seq<real>)

  function ClockAfter(op: Op): real {
    if op.Pass? then op.stamp else op.now
  }

  ghost predicate Legal(clock: real, op: Op) {
    && clock <= op.now
    && (op.Pass? ==> op.now <= op.stamp)
    && (op.Import? ==> NoneLater(op.times, op.now))
  }

  function Step(w: Window, op: Op): Window
    requires w.limit > 0
  {
    match op
    case Try(now) => TryAcquireAt(w, now).0
    case Pass(now, stamp, allowed) => PassAt(w, now, stamp, allowed).0
    case Inspect(now) => Evicted(w, now)
    case Retune(_, limit) => if limit <= 0 then w else w.(limit := limit)
    case Import(now, times) => Evicted(TakenOver(w, times), now)
  }

  /** Letting time pass keeps the invariant. */
  lemma {:induction false} ClockAdvances(w: Window, clock: real, now: real)
    requires Inv(w, clock) && clock <= now
    ensures Inv(w, now)
  {
  }

  lemma {:induction false} RetuneKeepsInv(w: Window, clock: real, limit: int)
    requires Inv(w, clock) && limit > 0
    ensures Inv(w.(limit := limit), clock)
  {
  }

  /** Every operation keeps the invariant, and a pass whose condition says no records nothing. */
  lemma {:induction false} StepKeepsInv(w: Window, clock: real, op: Op)
    requires Inv(w, clock) && Legal(clock, op)
    ensures w.limit > 0 && Inv(Step(w, op), ClockAfter(op))
    ensures op.Pass? && !op.allowed ==> Step(w, op).log == w.log
    ensures op.Retune? ==> Step(w, op) == w.(limit := if op.limit > 0 then op.limit else w.limit)
  {
    hide Inv;
    InvPositive(w, clock);
    EvictedDequeIsUnexpiredLog(w, clock, op.now);
    var e := Evicted(w, op.now);
    match op
    case Try(now) => if |e.times| < e.limit { RecordKeepsInv(e, now, now); }
    case Pass(now, stamp, allowed) =>
      if |e.times| < e.limit && allowed {
        RecordKeepsInv(e, now, stamp);
      } else {
        ClockAdvances(e, now, stamp);
      }
      if !allowed {
        RefusalRecordsNothing(w, clock, now, stamp);
      }
    case Inspect(_) =>
    case Retune(now, limit) =>
      ClockAdvances(w, clock, now);
      if limit > 0 { RetuneKeepsInv(w, now, limit); }
    case Import(now, times) =>
      TakenOverInv(w, times, now);
      EvictedDequeIsUnexpiredLog(TakenOver(w, times), now, now);
  }

  /** A run is legal when the clock never goes back. */
  ghost predicate LegalRun(w: Window, clock: real, ops: seq<Op>)
    decreases |ops|
  {
    ops == [] || (w.limit > 0 && Legal(clock, ops[0]) && LegalRun(Step(w, ops[0]), ClockAfter(ops[0]), ops[1..]))
  }

  ghost function Run(w: Window, clock: real, ops: seq<Op>): Window
    requires LegalRun(w, clock, ops)
    decreases |ops|
  {
    if ops == [] then w else Run(Step(w, ops[0]), ClockAfter(ops[0]), ops[1..])
  }

  ghost function EndClock(clock: real, ops: seq<Op>): real {
    if ops == [] then clock else ClockAfter(ops[|ops| - 1])
  }

  lemma {:induction false} RunKeepsInv(w: Window, clock: real, ops: seq<Op>)
    requires Inv(w, clock) && LegalRun(w, clock, ops)
    ensures Inv(Run(w, clock, ops), EndClock(clock, ops))
    decreases |ops|
  {
    if ops != [] {
      StepKeepsInv(w, clock, ops[0]);
      RunKeepsInv(Step(w, ops[0]), ClockAfter(ops[0]), ops[1..]);
      assert |ops| > 1 ==> ops[1..][|ops| - 2] == ops[|ops| - 1];
    }
  }

  // ----- what the invariant promises -----

  /** Every window (t - width, t] whose latest acquisition is an admission holds at most
      the limit in force at that admission. */
  lemma {:induction false} WindowEndingAtAdmission(w: Window, clock: real, t: real, j: nat)
    requires Inv(w, clock)
    requires j < |w.log| && w.log[j].Admission? && w.log[j].at <= t
    requires forall i | j < i < |w.log| :: w.log[i].at > t
    ensures CountIn(Stamps(w.log), t - w.width, t) <= w.log[j].limit
  {
    var all, s := Stamps(w.log), w.log[j].at;
    CountPrefix(all, j, t - w.width, t);
    assert all[..j + 1] == Stamps(w.log[..j + 1]);
    CountMonotone(all[..j + 1], s - w.width, s, t - w.width, s);
  }

  /** The last log entry at or before `t`, counted from the front. */
  lemma {:induction false} LatestAtOrBefore(log: seq<Stamp>, t: real) returns (n: nat)
    requires Sorted(Stamps(log))
    ensures n <= |log|
    ensures forall i | 0 <= i < n :: log[i].at <= t
    ensures forall i | n <= i < |log| :: log[i].at > t
  {
    AfterIsSuffix(Stamps(log), t);
    n := |log| - |After(Stamps(log), t)|;
    forall i | 0 <= i < |log| ensures i < n ==> log[i].at <= t {
      assert Stamps(log)[i] == log[i].at;
    }
    forall i | n <= i < |log| ensures log[i].at > t {
      assert Stamps(log)[i] == log[i].at;
    }
  }

  /** With nothing taken over and no limit above `most`, no half-open window of the full
      log holds more than `most` acquisitions. */
  lemma {:induction false} EveryWindowBounded(w: Window, clock: real, most: nat, t: real)
    requires Inv(w, clock)
    requires forall j | 0 <= j < |w.log| :: w.log[j].Admission? && w.log[j].limit <= most
    ensures CountIn(Stamps(w.log), t - w.width, t) <= most
  {
    var n := LatestAtOrBefore(w.log, t);
    if n == 0 {
      CountNone(Stamps(w.log), t - w.width, t);
    } else {
      WindowEndingAtAdmission(w, clock, t, n - 1);
    }
  }

  ghost predicate Within(op: Op, most: int) {
    !op.Import? && (op.Retune? ==> op.limit <= most)
  }

  lemma {:induction false} RunStaysWithin(w: Window, clock: real, ops: seq<Op>, most: int)
    requires LegalRun(w, clock, ops) && w.limit <= most
    requires forall j | 0 <= j < |w.log| :: w.log[j].Admission? && w.log[j].limit <= most
    requires forall k | 0 <= k < |ops| :: Within(ops[k], most)
    ensures var e := Run(w, clock, ops);
            e.width == w.width && forall j | 0 <= j < |e.log| :: e.log[j].Admission? && e.log[j].limit <= most
    decreases |ops|
  {
    if ops != [] {
      assert Within(ops[0], most);
      RunStaysWithin(Step(w, ops[0]), ClockAfter(ops[0]), ops[1..], most);
    }
  }

  /** The promise of the limiter, over every run: however the operations interleave, no
      half-open window of the full log ever holds more acquisitions than the largest
      limit that was in force. */
  lemma {:induction false} StrictWindowOverEveryRun(limit: int, width: real, clock: real, ops: seq<Op>, most: nat, t: real)
    requires 0 < limit <= most && width > 0.0
    requires LegalRun(Fresh(limit, width), clock, ops)
    requires forall k | 0 <= k < |ops| :: Within(ops[k], most)
    ensures CountIn(Stamps(Run(Fresh(limit, width), clock, ops).log), t - width, t) <= most
  {
    var w := Fresh(limit, width);
    FreshInv(limit, width, clock);
    RunKeepsInv(w, clock, ops);
    RunStaysWithin(w, clock, ops, most);
    EveryWindowBounded(Run(w, clock, ops), EndClock(clock, ops), most, t);
  }

  /** How many timestamps lie in the closed interval [lo, hi]. */
  function CountClosed(times: seq<real>, lo: real, hi: real): nat {
    if times == [] then 0
    else (if lo <= times[0] <= hi then 1 else 0) + CountClosed(times[1..], lo, hi)
  }

  /** The bound is for half-open windows only: two acquisitions exactly one width apart
      both lie in the closed window between them. */
  lemma {:induction false} ClosedWindowMayHoldMore()
    ensures var ops := [Try(0.0), Try(1.0)];
            LegalRun(Fresh(1, 1.0), 0.0, ops) && CountClosed(Stamps(Run(Fresh(1, 1.0), 0.0, ops).log), 0.0, 1.0) > 1
  {
    var w := Fresh(1, 1.0);
    var w1 := Step(w, Try(0.0));
    assert w1.times == [0.0];
    var w2 := Step(w1, Try(1.0));
    assert After([0.0], 0.0) == After([], 0.0) == [];
    assert w2.log == [Admission(0.0, 1), Admission(1.0, 1)];
    assert LegalRun(w2, 1.0, []);
    assert [Try(0.0), Try(1.0)][1..] == [Try(1.0)] && [Try(1.0)][1..] == [];
    assert LegalRun(w1, 0.0, [Try(1.0)]);
    assert Run(w1, 0.0, [Try(1.0)]) == Run(w2, 1.0, []);
    assert Stamps(w2.log) == [0.0, 1.0] && [0.0, 1.0][1..] == [1.0] && [1.0][1..] == [];
    assert CountClosed([1.0], 0.0, 1.0) == 1;
  }

  /** No two acquisitions `limit` apart in the log lie exactly one width apart. */
  ghost predicate NoneAtTheEdge(times: seq<real>, limit: nat, width: real) {
    forall j: nat | j + limit < |times| :: times[j] + width != times[j + limit]
  }

  /** Every closed window of one width holds at most `limit`. */
  ghost predicate ClosedBound(times: seq<real>, limit: nat, width: real) {
    forall lo: real, hi: real | hi == lo + width :: CountClosed(times, lo, hi) <= limit
  }

  lemma {:induction false} CountAllIn(times: seq<real>, lo: real, hi: real)
    requires forall i | 0 <= i < |times| :: lo < times[i] <= hi
    ensures CountIn(times, lo, hi) == |times|
  {
    if times != [] {
      CountAllIn(times[1..], lo, hi);
    }
  }

  lemma {:induction false} CountClosedAll(times: seq<real>, lo: real, hi: real)
    requires forall i | 0 <= i < |times| :: lo <= times[i] <= hi
    ensures CountClosed(times, lo, hi) == |times|
  {
    if times != [] {
      CountClosedAll(times[1..], lo, hi);
    }
  }

  lemma {:induction false} CountClosedAppend(a: seq<real>, b: seq<real>, lo: real, hi: real)
    ensures CountClosed(a + b, lo, hi) == CountClosed(a, lo, hi) + CountClosed(b, lo, hi)
  {
    if a == [] {
      assert a + b == b;
    } else {
      assert (a + b)[1..] == a[1..] + b;
      CountClosedAppend(a[1..], b, lo, hi);
    }
  }

  /** In sorted timestamps, a closed interval that holds `n` of them holds `n` in a row. */
  lemma {:induction false} ClosedHoldsARun(times: seq<real>, lo: real, hi: real, n: nat) returns (i: nat)
    requires Sorted(times) && 0 < n <= CountClosed(times, lo, hi)
    ensures i + n <= |times| && lo <= times[i] && times[i + n - 1] <= hi
  {
    assert Sorted(times[1..]);
    if lo <= times[0] <= hi {
      i := 0;
      if n > 1 {
        var j := ClosedHoldsARun(times[1..], lo, hi, n - 1);
        assert times[n - 1] <= times[1..][j + n - 2];
      }
    } else {
      var j := ClosedHoldsARun(times[1..], lo, hi, n);
      i := j + 1;
    }
  }

  /** Sorted timestamps, the first later than `lo` and the last no later than `hi`, all count. */
  lemma {:induction false} RunCounts(all: seq<real>, i: nat, k: nat, lo: real, hi: real)
    requires Sorted(all) && i <= k < |all| && lo < all[i] && all[k] <= hi
    ensures CountIn(all[..k + 1], lo, hi) >= k + 1 - i
  {
    var middle := all[i..k + 1];
    assert all[..k + 1] == all[..i] + middle;
    CountAppend(all[..i], middle, lo, hi);
    CountAllIn(middle, lo, hi);
  }

  /** With one limit throughout and nothing imported, acquisitions `limit` apart in the log are at least one
      width apart in time. */
  lemma {:induction false} Spaced(w: Window, clock: real, limit: nat, j: nat)
    requires Inv(w, clock) && limit > 0 && j + limit < |w.log|
    requires forall i | 0 <= i < |w.log| :: w.log[i].Admission? && w.log[i].limit == limit
    ensures w.log[j].at + w.width <= w.log[j + limit].at
  {
    hide CountIn, IsTail, NoneLater;
    var k := j + limit;
    var t := w.log[k].at;
    assert Stamps(w.log[..k + 1]) == Stamps(w.log)[..k + 1];
    if w.log[j].at > t - w.width {
      RunCounts(Stamps(w.log), j, k, t - w.width, t);
    }
  }

  /** The closed bound, for timestamps so spaced: it fails exactly when two of them, `limit` apart in order, are
      exactly one width apart in time. */
  lemma {:induction false} SpacedClosedBound(times: seq<real>, limit: nat, width: real)
    requires Sorted(times) && limit > 0 && width > 0.0
    requires forall j: nat | j + limit < |times| :: times[j] + width <= times[j + limit]
    ensures ClosedBound(times, limit, width) <==> NoneAtTheEdge(times, limit, width)
  {
    if NoneAtTheEdge(times, limit, width) {
      forall lo: real, hi: real | hi == lo + width ensures CountClosed(times, lo, hi) <= limit {
        if CountClosed(times, lo, hi) > limit {
          var i := ClosedHoldsARun(times, lo, hi, limit + 1);
          assert false;
        }
      }
    }
    if j: nat :| j + limit < |times| && times[j] + width == times[j + limit] {
      EdgeBreaksClosedBound(times, limit, width, j);
    }
  }

  lemma {:induction false} EdgeBreaksClosedBound(times: seq<real>, limit: nat, width: real, j: nat)
    requires Sorted(times) && width > 0.0 && j + limit < |times| && times[j] + width == times[j + limit]
    ensures !ClosedBound(times, limit, width)
  {
    hide CountClosed;
    var lo, hi := times[j], times[j + limit];
    var middle, rest := times[j..j + limit + 1], times[j + limit + 1..];
    assert times == times[..j] + (middle + rest);
    CountClosedAppend(times[..j], middle + rest, lo, hi);
    CountClosedAppend(middle, rest, lo, hi);
    CountClosedAll(middle, lo, hi);
    assert CountClosed(times, lo, hi) > limit;
  }

  /** Neither retunes nor imports. */
  predicate Steady(op: Op) {
    !op.Retune? && !op.Import?
  }

  lemma {:induction false} SteadyRun(w: Window, clock: real, ops: seq<Op>, limit: int)
    requires LegalRun(w, clock, ops) && w.limit == limit && forall k | 0 <= k < |ops| :: Steady(ops[k])
    requires forall i | 0 <= i < |w.log| :: w.log[i].Admission? && w.log[i].limit == limit
    ensures var e := Run(w, clock, ops);
            && e.limit == limit && e.width == w.width
            && forall i | 0 <= i < |e.log| :: e.log[i].Admission? && e.log[i].limit == limit
    decreases |ops|
  {
    hide Legal, After;
    if ops != [] {
      assert Steady(ops[0]);
      SteadyRun(Step(w, ops[0]), ClockAfter(ops[0]), ops[1..], limit);
    }
  }

  /** Exactly when the limiter meets the bound in every closed window, over every run with one limit and no imports:
      when no acquisition falls exactly one width after the one `limit` places before it. */
  lemma {:induction false} ClosedWindowExactly(limit: nat, width: real, clock: real, ops: seq<Op>)
    requires limit > 0 && width > 0.0 && LegalRun(Fresh(limit, width), clock, ops)
    requires forall k | 0 <= k < |ops| :: Steady(ops[k])
    ensures var times := Stamps(Run(Fresh(limit, width), clock, ops).log);
            ClosedBound(times, limit, width) <==> NoneAtTheEdge(times, limit, width)
  {
    hide Inv, LegalRun, Run, ClosedBound, NoneAtTheEdge;
    FreshInv(limit, width, clock);
    RunKeepsInv(Fresh(limit, width), clock, ops);
    SteadyRun(Fresh(limit, width), clock, ops, limit);
    var e := Run(Fresh(limit, width), clock, ops);
    SpacedLog(e, EndClock(clock, ops), limit);
    SpacedClosedBound(Stamps(e.log), limit, width);
  }

  lemma {:induction false} SpacedLog(w: Window, clock: real, limit: nat)
    requires Inv(w, clock) && limit > 0
    requires forall i | 0 <= i < |w.log| :: w.log[i].Admission? && w.log[i].limit == limit
    ensures Sorted(Stamps(w.log))
    ensures forall j: nat | j + limit < |w.log| :: Stamps(w.log)[j] + w.width <= Stamps(w.log)[j + limit]
  {
    forall j: nat | j + limit < |w.log| ensures Stamps(w.log)[j] + w.width <= Stamps(w.log)[j + limit] {
      Spaced(w, clock, limit, j);
    }
  }

  /** Whether an acquisition at `at` keeps the closed bound: nothing was acquired `limit` places before it, or not
      exactly one width earlier. */
  predicate MissesTheEdge(w: Window, at: real)
    requires w.limit > 0
  {
    |w.log| < w.limit || w.log[|w.log| - w.limit].at + w.width != at
  }

  lemma {:induction false} RecordingKeepsClosedBound(w: Window, clock: real, after: Window, at: real)
    requires Inv(w, clock) && Inv(after, at) && w.limit > 0 && ClosedBound(Stamps(w.log), w.limit, w.width)
    requires forall i | 0 <= i < |w.log| :: w.log[i].Admission? && w.log[i].limit == w.limit
    requires after.log == w.log + [Admission(at, w.limit)] && after.limit == w.limit && after.width == w.width
    ensures ClosedBound(Stamps(after.log), w.limit, w.width) <==> MissesTheEdge(w, at)
  {
    hide Inv, ClosedBound, NoneAtTheEdge, Sorted;
    InvPositive(w, clock);
    SpacedLog(w, clock, w.limit);
    SpacedClosedBound(Stamps(w.log), w.limit, w.width);
    SpacedLog(after, at, w.limit);
    SpacedClosedBound(Stamps(after.log), w.limit, w.width);
    assert Stamps(after.log) == Stamps(w.log) + [at];
    EdgeAppend(Stamps(w.log), w.limit, w.width, at);
  }

  /** Exactly when one acquisition keeps the closed bound, as a caller can tell beforehand: it is refused, or the log
      is still shorter than the limit, or the acquisition that just expired is not exactly one width old. */
  lemma {:induction false} AcquisitionKeepsClosedBound(w: Window, clock: real, now: real)
    requires Inv(w, clock) && clock <= now && w.limit > 0 && ClosedBound(Stamps(w.log), w.limit, w.width)
    requires forall i | 0 <= i < |w.log| :: w.log[i].Admission? && w.log[i].limit == w.limit
    ensures var (after, ok) := TryAcquireAt(w, now);
            ClosedBound(Stamps(after.log), w.limit, w.width) <==> !ok || MissesTheEdge(w, now)
  {
    hide Inv, ClosedBound, After, Stamps, MissesTheEdge;
    StepKeepsInv(w, clock, Try(now));
    var (after, ok) := TryAcquireAt(w, now);
    if ok {
      RecordingKeepsClosedBound(w, clock, after, now);
    }
  }

  /** The same for a pass of the waiting loop, which records the second clock reading. */
  lemma {:induction false} PassKeepsClosedBound(w: Window, clock: real, now: real, stamp: real, allowed: bool)
    requires Inv(w, clock) && clock <= now <= stamp && w.limit > 0 && ClosedBound(Stamps(w.log), w.limit, w.width)
    requires forall i | 0 <= i < |w.log| :: w.log[i].Admission? && w.log[i].limit == w.limit
    ensures var (after, r) := PassAt(w, now, stamp, allowed);
            ClosedBound(Stamps(after.log), w.limit, w.width) <==> !r.Admitted? || MissesTheEdge(w, stamp)
  {
    hide Inv, ClosedBound, After, Stamps, MissesTheEdge, NextAvailableAt;
    StepKeepsInv(w, clock, Pass(now, stamp, allowed));
    var (after, r) := PassAt(w, now, stamp, allowed);
    if r.Admitted? {
      RecordingKeepsClosedBound(w, clock, after, stamp);
    }
  }

  lemma {:induction false} EdgeAppend(times: seq<real>, limit: nat, width: real, now: real)
    requires limit > 0 && NoneAtTheEdge(times, limit, width)
    ensures NoneAtTheEdge(times + [now], limit, width) <==> |times| < limit || times[|times| - limit] + width != now
  {
    var more := times + [now];
    if |times| >= limit {
      var last: nat := |times| - limit;
      assert more[last] == times[last] && more[last + limit] == now;
      if times[last] + width != now {
        forall j: nat | j + limit < |more| ensures more[j] + width != more[j + limit] {
          if j < last {
            assert times[j] + width != times[j + limit];
          }
        }
      }
    }
  }

  /** Admission is exact in both directions: an acquisition goes through if and only if
      the window ending now still has room in the full log. */
  lemma {:induction false} AdmitsExactlyWhenRoom(w: Window, clock: real, now: real)
    requires Inv(w, clock) && clock <= now
    ensures TryAcquireAt(w, now).1 <==> CountIn(Stamps(w.log), now - w.width, now) < w.limit
    ensures TryAcquireAt(w, now).0.log == if TryAcquireAt(w, now).1 then w.log + [Admission(now, w.limit)] else w.log
  {
    hide Sorted, IsTail, AdmissionsBounded, After, CountIn;
    EvictedDequeIsUnexpiredLog(w, clock, now);
    LaterNoneLater(Stamps(w.log), clock, now);
    CountIsAfter(Stamps(w.log), now - w.width, now);
  }

  /** The headroom is how many acquisitions the window ending now still has room for, and each takes one. */
  lemma {:induction false} HeadroomIsRoomLeft(w: Window, clock: real, now: real)
    requires Inv(w, clock) && clock <= now
    ensures var count := CountIn(Stamps(w.log), now - w.width, now);
            HeadroomAt(w, now) == if count >= w.limit then 0 else w.limit - count
    ensures TryAcquireAt(w, now).1 ==> HeadroomAt(TryAcquireAt(w, now).0, now) == HeadroomAt(w, now) - 1
  {
    hide Sorted, IsTail, AdmissionsBounded, After, CountIn, Stamps;
    EvictedDequeIsUnexpiredLog(w, clock, now);
    LaterNoneLater(Stamps(w.log), clock, now);
    CountIsAfter(Stamps(w.log), now - w.width, now);
    OneMoreUnexpired(w.times, now, w.width);
  }

  lemma {:induction false} OneMoreUnexpired(times: seq<real>, now: real, width: real)
    requires width > 0.0
    ensures |After(After(times, now - width) + [now], now - width)| == |After(times, now - width)| + 1
  {
    var kept := After(times, now - width);
    AfterKept(times, now - width);
    AfterAppend(kept, [now], now - width);
    assert [now][1..] == [];
    assert After([now], now - width) == [now] + After([], now - width);
  }

  lemma {:induction false} AfterKept(times: seq<real>, cutoff: real)
    ensures After(After(times, cutoff), cutoff) == After(times, cutoff)
  {
    if times != [] {
      AfterKept(times[1..], cutoff);
    }
  }

  /** A refused conditional acquisition records nothing. */
  lemma {:induction false} RefusalRecordsNothing(w: Window, clock: real, now: real, stamp: real)
    requires Inv(w, clock) && clock <= now <= stamp
    ensures PassAt(w, now, stamp, false).0.log == w.log
    ensures PassAt(w, now, stamp, false).0.times == After(Stamps(w.log), now - w.width)
    ensures PassAt(w, now, stamp, false).1 != Admitted
  {
    hide Inv, After, Stamps;
    EvictedDequeIsUnexpiredLog(w, clock, now);
  }

  /** A sorted deque keeps fewer than `limit` entries exactly when the one whose expiry
      unlocks the next slot has expired. */
  lemma {:induction false} AfterShort(times: seq<real>, cutoff: real, limit: int)
    requires Sorted(times) && 0 < limit <= |times|
    ensures |After(times, cutoff)| < limit <==> times[|times| - limit] <= cutoff
  {
    AfterIsSuffix(times, cutoff);
  }

  /** An evicted deque admits at `t` exactly when the announced wait has run out, and an
      announced wait is positive. */
  lemma {:induction false} WaitOnDeque(times: seq<real>, limit: int, width: real, now: real, t: real)
    requires Sorted(times) && limit > 0 && now <= t
    requires forall i | 0 <= i < |times| :: times[i] > now - width
    ensures |times| < limit ==> |After(times, t - width)| < limit
    ensures |times| >= limit ==> times[|times| - limit] + width - now > 0.0
    ensures |times| >= limit ==>
      (|After(times, t - width)| < limit <==> t >= now + (times[|times| - limit] + width - now))
  {
    if |times| >= limit {
      AfterShort(times, t - width, limit);
    } else {
      AfterIsSuffix(times, t - width);
    }
  }

  lemma {:induction false} DequeShape(w: Window, clock: real, now: real)
    requires Inv(w, clock) && clock <= now
    ensures Sorted(w.times) && Sorted(Evicted(w, now).times)
    ensures forall i | 0 <= i < |Evicted(w, now).times| :: Evicted(w, now).times[i] > now - w.width
  {
    assert Sorted(w.times);
    AfterStaysSorted(w.times, now - w.width);
  }

  /** The wait is exact: with no acquisition in between, the limiter admits at `t` if and
      only if the announced wait has run out by then. */
  lemma {:induction false} ExactWaitTime(w: Window, clock: real, now: real, t: real)
    requires Inv(w, clock) && clock <= now <= t
    ensures TryAcquireAt(Evicted(w, now), t).1 <==> t >= now + NextAvailableAt(w, now)
  {
    DequeShape(w, clock, now);
    WaitOnDeque(Evicted(w, now).times, w.limit, w.width, now, t);
  }

  /** A pass that must wait announces a positive wait. */
  lemma {:induction false} RetryWaitsPositive(w: Window, clock: real, now: real)
    requires Inv(w, clock) && clock <= now && |After(w.times, now - w.width)| >= w.limit
    ensures NextAvailableAt(w, now) > 0.0
  {
    DequeShape(w, clock, now);
    WaitOnDeque(Evicted(w, now).times, w.limit, w.width, now, now);
  }

  lemma {:induction false} PoppedIsAfter(before: seq<real>, dropped: nat, cutoff: real)
    requires Sorted(before) && dropped <= |before|
    requires forall i | 0 <= i < dropped :: before[i] <= cutoff
    requires dropped == |before| || before[dropped] > cutoff
    ensures After(before, cutoff) == before[dropped..]
  {
    assert before == before[..dropped] + before[dropped..];
    AfterAppend(before[..dropped], before[dropped..], cutoff);
    AfterDropsAll(before[..dropped], cutoff);
    AfterKeepsAll(before[dropped..], cutoff);
  }

  // ----- the object -----

  class StrictSlidingWindowLimiter {
    var rateLimit: int
    const rateWindow: real
    var times: seq<real>
    ghost var log: seq<Stamp>
    ghost var clock: real

    ghost function View(): Window
      reads this
    {
      Window(rateLimit, rateWindow, times, log)
    }

    ghost predicate Valid()
      reads this
    {
      Inv(View(), clock)
    }

    constructor (rateLimit: int, rateWindow: real, ghost now: real)
      requires rateLimit > 0 && rateWindow > 0.0
      ensures Valid() && clock == now
      ensures View() == Fresh(rateLimit, rateWindow)
    {
      this.rateLimit := rateLimit;
      this.rateWindow := rateWindow;
      times := [];
      log := [];
      clock := now;
      new;
      FreshInv(rateLimit, rateWindow, now);
    }

    /** Refuses a capacity that is not positive; otherwise what was recorded stays. */
    method SetRateLimit(limit: int) returns (ok: bool)
      requires Valid()
      modifies this`rateLimit
      ensures Valid() && ok == (limit > 0)
      ensures View() == if ok then old(View()).(limit := limit) else old(View())
    {
      ok := limit > 0;
      if ok {
        RetuneKeepsInv(View(), clock, limit);
        rateLimit := limit;
      }
    }

    /** Pops expired timestamps off the front; what is left is the unexpired log. */
    method EvictExpired(now: real)
      requires Valid() && clock <= now
      modifies this`times, this`clock
      ensures Valid() && clock == now
      ensures View() == Evicted(old(View()), now)
      ensures times == After(Stamps(log), now - rateWindow)
    {
      hide Inv;
      DequeShape(View(), clock, now);
      PopExpired(now - rateWindow);
      clock := now;
      EvictedDequeIsUnexpiredLog(old(View()), old(clock), now);
    }

    method PopExpired(cutoff: real)
      requires Sorted(times)
      modifies this`times
      ensures times == After(old(times), cutoff)
    {
      ghost var before, dropped := times, 0;
      while times != [] && times[0] <= cutoff
        invariant 0 <= dropped <= |before| && times == before[dropped..]
        invariant forall i | 0 <= i < dropped :: before[i] <= cutoff
        decreases |times|
      {
        times := times[1..];
        dropped := dropped + 1;
      }
      PoppedIsAfter(before, dropped, cutoff);
    }

    method RecordedTimes(now: real) returns (r: seq<real>)
      requires Valid() && clock <= now
      modifies this`times, this`clock
      ensures Valid() && clock == now && View() == Evicted(old(View()), now)
      ensures r == times == After(Stamps(log), now - rateWindow)
    {
      hide Inv;
      EvictExpired(now);
      r := times;
    }

    /** Replaces what was recorded by a predecessor's timestamps, read off the same clock. */
    method RecordTimes(taken: seq<real>, now: real)
      requires Valid() && clock <= now
      requires NoneLater(taken, now)
      modifies this`times, this`log, this`clock
      ensures Valid() && clock == now && View() == Evicted(TakenOver(old(View()), taken), now)
    {
      hide Inv;
      InvPositive(View(), clock);
      TakenOverInv(View(), taken, now);
      var sorted := SortTimes(taken);
      times, log, clock := sorted, Takeovers(sorted), now;
      EvictExpired(now);
    }

    method Headroom(now: real) returns (room: int)
      requires Valid() && clock <= now
      modifies this`times, this`clock
      ensures Valid() && clock == now && View() == Evicted(old(View()), now)
      ensures room == HeadroomAt(old(View()), now) >= 0
      ensures room > 0 <==> TryAcquireAt(old(View()), now).1
    {
      hide Inv;
      EvictExpired(now);
      room := if rateLimit - |times| < 0 then 0 else rateLimit - |times|;
    }

    method TryAcquire(now: real) returns (ok: bool)
      requires Valid() && clock <= now
      modifies this`times, this`log, this`clock
      ensures Valid() && clock == now
      ensures (View(), ok) == TryAcquireAt(old(View()), now)
    {
      hide Inv;
      EvictExpired(now);
      if |times| >= rateLimit {
        return false;
      }
      RecordKeepsInv(View(), now, now);
      times := times + [now];
      log := log + [Admission(now, rateLimit)];
      ok := true;
    }

    method NextAvailableIn(now: real) returns (wait: real)
      requires Valid() && clock <= now
      modifies this`times, this`clock
      ensures Valid() && clock == now && View() == Evicted(old(View()), now)
      ensures wait == NextAvailableAt(old(View()), now) >= 0.0
    {
      hide Inv;
      EvictExpired(now);
      if |times| < rateLimit {
        return 0.0;
      }
      InvPositive(View(), clock);
      var unlockIndex := |times| - rateLimit;
      wait := times[unlockIndex] + rateWindow - now;
      if wait < 0.0 {
        wait := 0.0;
      }
    }

    /** One pass of the waiting loop under the lock; the caller sleeps on `Retry`. */
    method AcquirePass(now: real, stamp: real, allowed: bool) returns (r: PassResult)
      requires Valid() && clock <= now <= stamp
      modifies this`times, this`log, this`clock
      ensures Valid() && clock == stamp
      ensures (View(), r) == PassAt(old(View()), now, stamp, allowed)
      ensures r.Retry? ==> r.wait == NextAvailableAt(old(View()), now) > 0.0
    {
      hide Inv;
      EvictExpired(now);
      if |times| < rateLimit {
        if !allowed {
          ClockAdvances(View(), clock, stamp);
          clock := stamp;
          return Refused;
        }
        RecordKeepsInv(View(), now, stamp);
        times := times + [stamp];
        log := log + [Admission(stamp, rateLimit)];
        clock := stamp;
        return Admitted;
      }
      RetryWaitsPositive(old(View()), old(clock), now);
      InvPositive(View(), clock);
      var unlockIndex := |times| - rateLimit;
      var wait := times[unlockIndex] + rateWindow - now;
      ClockAdvances(View(), clock, stamp);
      clock := stamp;
      r := Retry(if wait < 0.0 then 0.0 else wait);
    }
  }
}
