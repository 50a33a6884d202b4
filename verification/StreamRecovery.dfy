/** Stream holdback and recovery: early events are kept back so that a cut-off attempt can
    be replayed without the client noticing. */
module StreamRecovery {
  import opened Common

  type CodePoint = c: int | 0 <= c < 0x11_0000 witness 0

  /** One event of the wire stream; `content` marks generated output, as opposed to
      message starts and keepalives. */
  datatype Event = Event(text: seq<CodePoint>, content: bool)

  // ----- byte lengths -----

  /** The UTF-8 length of a code point; a lone surrogate is replaced by one question mark. */
  function EncodedSize(c: CodePoint): nat {
    if c < 0x80 then 1
    else if c < 0x800 then 2
    else if 0xD800 <= c <= 0xDFFF then 1
    else if c < 0x1_0000 then 3
    else 4
  }

  function EncodedLength(text: seq<CodePoint>): nat {
    if text == [] then 0 else EncodedSize(text[0]) + EncodedLength(text[1..])
  }

  predicate IsAscii(text: seq<CodePoint>) {
    forall i | 0 <= i < |text| :: text[i] < 0x80
  }

  /** The shortcut the buffer takes: the character count for ASCII, else the encoded length. */
  function ByteCost(text: seq<CodePoint>): nat {
    if IsAscii(text) then |text| else EncodedLength(text)
  }

  lemma {:induction false} AsciiShortcutIsExact(text: seq<CodePoint>)
    ensures ByteCost(text) == EncodedLength(text)
  {
    if IsAscii(text) && text != [] {
      assert IsAscii(text[1..]);
      AsciiShortcutIsExact(text[1..]);
    }
  }

  /** What the client would receive, in bytes. */
  function EncodedTotal(events: seq<Event>): nat {
    if events == [] then 0 else EncodedTotal(events[..|events| - 1]) + EncodedLength(events[|events| - 1].text)
  }

  // ----- the buffer and the stream's life, on values -----

  datatype Buffer = Buffer(events: seq<Event>, bytes: nat, startedAt: Option<real>, committed: bool)

  datatype Limits = Limits(holdback: real, maxBytes: nat)

  /** Seconds of holdback and the byte cap of a default buffer. */
  function DefaultLimits(): Limits {
    Limits(0.15, 65536)
  }

  function FreshBuffer(): Buffer {
    Buffer([], 0, None, false)
  }

  function Flushed(b: Buffer): (Buffer, seq<Event>) {
    if b.committed then (b, []) else (Buffer([], 0, None, true), b.events)
  }

  /** Pushing reads the clock when the buffer starts and again for the deadline. */
  function Pushed(b: Buffer, limits: Limits, e: Event, now: real, later: real): (Buffer, seq<Event>) {
    if b.committed then (b, [e])
    else
      var started := if b.startedAt.None? then now else b.startedAt.value;
      var b' := Buffer(b.events + [e], b.bytes + ByteCost(e.text), Some(started), false);
      if b'.bytes >= limits.maxBytes || later - started >= limits.holdback then Flushed(b') else (b', [])
  }

  function Discarded(b: Buffer): Buffer {
    Buffer([], 0, None, b.committed)
  }

  ghost predicate BufferInv(b: Buffer, limits: Limits) {
    && b.bytes == EncodedTotal(b.events)
    && (b.committed ==> b.events == [])
    && (b.startedAt.Some? <==> b.events != [])
    && (!b.committed ==> b.bytes < limits.maxBytes || b.events == [])
  }

  datatype Action = EarlyRetry | MidstreamRecovery | FinalError

  datatype Decision = Decision(action: Action, retryable: bool, committed: bool, hasBuffered: bool)

  datatype Failure = Failure(retryable: bool, streamOpened: bool, generatedOutput: bool, salvageable: bool, attemptsRemaining: int)

  function Decide(f: Failure, b: Buffer): Decision {
    var available := f.attemptsRemaining > 0;
    var action :=
      if f.retryable && available && f.streamOpened && (!b.committed || !f.generatedOutput) && !f.salvageable
         && !(f.generatedOutput && f.attemptsRemaining == 1) then EarlyRetry
      else if f.retryable && f.generatedOutput && (available || f.salvageable) then MidstreamRecovery
      else FinalError;
    Decision(action, f.retryable, b.committed, b.events != [])
  }

  /** A stream's life.  `pushed` and `emitted` belong to the current attempt: what was pushed
      since the buffer was last thrown away, and what of it the client received.  `client`
      is everything the client ever received, each event with its attempt. */
  datatype Life = Life(
    buffer: Buffer,
    attempt: nat,
    pushed: seq<Event>,
    emitted: seq<Event>,
    client: seq<(nat, Event)>,
    retried: set<nat>)

  function Tagged(attempt: nat, events: seq<Event>): seq<(nat, Event)> {
    seq(|events|, i requires 0 <= i < |events| => (attempt, events[i]))
  }

  function Send(l: Life, events: seq<Event>): Life {
    l.(emitted := l.emitted + events, client := l.client + Tagged(l.attempt, events))
  }

  datatype Move = Push(e: Event, now: real, later: real) | Flush | Discard | Fail(failure: Failure)

  function Start(): Life {
    Life(FreshBuffer(), 0, [], [], [], {})
  }

  predicate HasContent(events: seq<Event>) {
    exists i | 0 <= i < |events| :: events[i].content
  }

  /** The caller's report of generated output covers all content the client has received. */
  predicate Honest(l: Life, m: Move) {
    m.Fail? && HasContent(l.emitted) ==> m.failure.generatedOutput
  }

  function Step(l: Life, limits: Limits, m: Move): Life {
    match m
    case Push(e, now, later) =>
      var (b, out) := Pushed(l.buffer, limits, e, now, later);
      Send(l.(buffer := b, pushed := l.pushed + [e]), out)
    case Flush =>
      var (b, out) := Flushed(l.buffer);
      Send(l.(buffer := b), out)
    case Discard =>
      l.(buffer := Discarded(l.buffer), pushed := l.emitted)
    case Fail(f) =>
      if Decide(f, l.buffer).action.EarlyRetry?
      then l.(buffer := FreshBuffer(), attempt := l.attempt + 1, pushed := [], emitted := [], retried := l.retried + {l.attempt})
      else l
  }

  // ----- what is kept -----

  ghost predicate Inv(l: Life, limits: Limits) {
    && BufferInv(l.buffer, limits)
    && l.emitted + l.buffer.events == l.pushed
    && (!l.buffer.committed ==> l.emitted == [])
    && (forall i | 0 <= i < |l.client| :: l.client[i].0 <= l.attempt)
    && (forall a | a in l.retried :: a < l.attempt)
    && (forall i | 0 <= i < |l.client| && l.client[i].0 == l.attempt && l.client[i].1.content :: HasContent(l.emitted))
    && (forall i | 0 <= i < |l.client| && l.client[i].1.content :: l.client[i].0 !in l.retried)
  }

  lemma {:induction false} StartInv(limits: Limits)
    ensures Inv(Start(), limits)
  {
  }

  lemma {:induction false} PushKeepsBuffer(b: Buffer, limits: Limits, e: Event, now: real, later: real)
    requires BufferInv(b, limits)
    ensures BufferInv(Pushed(b, limits, e, now, later).0, limits)
    ensures var (b', out) := Pushed(b, limits, e, now, later);
            out + b'.events == b.events + [e] && (!b'.committed ==> out == [])
  {
    assert (b.events + [e])[..|b.events|] == b.events;
    AsciiShortcutIsExact(e.text);
  }

  lemma {:induction false} SendKeeps(l: Life, out: seq<Event>)
    requires forall i | 0 <= i < |l.client| :: l.client[i].0 <= l.attempt
    requires forall a | a in l.retried :: a < l.attempt
    requires forall i | 0 <= i < |l.client| && l.client[i].0 == l.attempt && l.client[i].1.content :: HasContent(l.emitted)
    requires forall i | 0 <= i < |l.client| && l.client[i].1.content :: l.client[i].0 !in l.retried
    ensures var l' := Send(l, out);
            && (forall i | 0 <= i < |l'.client| :: l'.client[i].0 <= l'.attempt)
            && (forall i | 0 <= i < |l'.client| && l'.client[i].0 == l'.attempt && l'.client[i].1.content :: HasContent(l'.emitted))
            && (forall i | 0 <= i < |l'.client| && l'.client[i].1.content :: l'.client[i].0 !in l'.retried)
  {
    var l' := Send(l, out);
    if HasContent(l.emitted) {
      var k :| 0 <= k < |l.emitted| && l.emitted[k].content;
      assert l'.emitted[k].content;
    }
    forall i | 0 <= i < |l'.client| && l'.client[i].0 == l'.attempt && l'.client[i].1.content ensures HasContent(l'.emitted) {
      if i >= |l.client| {
        assert l'.emitted[|l.emitted| + i - |l.client|].content;
      }
    }
  }

  /** Every move keeps the history right, and a retryable failure with an attempt left is not final once output was
      generated. */
  lemma {:induction false} StepKeepsInv(l: Life, limits: Limits, m: Move)
    requires Inv(l, limits) && Honest(l, m)
    ensures Inv(Step(l, limits, m), limits)
    ensures m.Fail? && m.failure.generatedOutput && m.failure.retryable && m.failure.attemptsRemaining > 0 ==>
              !Decide(m.failure, l.buffer).action.FinalError?
  {
    match m {
      case Push(e, now, later) =>
        PushKeepsBuffer(l.buffer, limits, e, now, later);
        SendKeeps(l.(buffer := Pushed(l.buffer, limits, e, now, later).0, pushed := l.pushed + [e]),
                  Pushed(l.buffer, limits, e, now, later).1);
      case Flush => SendKeeps(l.(buffer := Flushed(l.buffer).0), Flushed(l.buffer).1);
      case Discard =>
      case Fail(f) =>
        EarlyRetryIsInvisible(l, limits, f);
        FinalErrorExactly(f, l.buffer);
    }
  }

  /** An early retry happens only when none of the attempt's content reached the client. */
  lemma {:induction false} EarlyRetryIsInvisible(l: Life, limits: Limits, f: Failure)
    requires Inv(l, limits) && Honest(l, Fail(f))
    ensures Decide(f, l.buffer).action.EarlyRetry? ==>
              !HasContent(l.emitted) && forall i | 0 <= i < |l.client| && l.client[i].0 == l.attempt :: !l.client[i].1.content
  {
  }

  // ----- runs -----

  ghost predicate HonestRun(l: Life, limits: Limits, run: seq<Move>)
    decreases |run|
  {
    run == [] || (Honest(l, run[0]) && HonestRun(Step(l, limits, run[0]), limits, run[1..]))
  }

  ghost function After(l: Life, limits: Limits, run: seq<Move>): Life
    decreases |run|
  {
    if run == [] then l else After(Step(l, limits, run[0]), limits, run[1..])
  }

  lemma {:induction false} RunKeepsInv(l: Life, limits: Limits, run: seq<Move>)
    requires Inv(l, limits) && HonestRun(l, limits, run)
    ensures Inv(After(l, limits, run), limits)
    decreases |run|
  {
    if run != [] {
      StepKeepsInv(l, limits, run[0]);
      RunKeepsInv(Step(l, limits, run[0]), limits, run[1..]);
    }
  }

  /** Over any run of pushes, flushes, discards and failures: the client never holds content
      of an attempt that was retried; what was sent and what is held make up what was
      pushed, in order; and what is held stays under the byte cap. */
  lemma {:induction false} RetriedAttemptsAreInvisible(limits: Limits, run: seq<Move>)
    requires limits.maxBytes > 0 && HonestRun(Start(), limits, run)
    ensures var l := After(Start(), limits, run);
            && (forall i | 0 <= i < |l.client| && l.client[i].1.content :: l.client[i].0 !in l.retried)
            && l.emitted + l.buffer.events == l.pushed
            && (!l.buffer.committed ==> l.emitted == [] && EncodedTotal(l.buffer.events) < limits.maxBytes)
            && (l.buffer.committed ==> l.buffer.events == [])
  {
    StartInv(limits);
    RunKeepsInv(Start(), limits, run);
  }

  // ----- when events are released -----

  /** A push holds the event back exactly while nothing was released before, what is held stays under the byte cap on the wire,
      and the first event held has not yet waited for the holdback; otherwise it releases everything held, and from then on
      every event at once. */
  lemma {:induction false} PushReleasesExactly(b: Buffer, limits: Limits, e: Event, now: real, later: real)
    requires BufferInv(b, limits)
    ensures var (b', out) := Pushed(b, limits, e, now, later);
            var since := if b.events == [] then now else b.startedAt.value;
            var holds := !b.committed && EncodedTotal(b.events + [e]) < limits.maxBytes && later - since < limits.holdback;
            && (if holds then out == [] && b'.events == b.events + [e] && b'.startedAt == Some(since)
                else out == b.events + [e] && b'.events == [])
            && (b'.committed <==> !holds)
  {
    assert (b.events + [e])[..|b.events|] == b.events;
    AsciiShortcutIsExact(e.text);
  }

  /** A flush releases everything held, once, and a discard drops it without releasing anything ever after. */
  lemma {:induction false} FlushAndDiscard(b: Buffer, limits: Limits)
    requires BufferInv(b, limits)
    ensures var (b', out) := Flushed(b); out == b.events && b'.events == [] && b'.committed && BufferInv(b', limits)
    ensures var b' := Discarded(b); b'.events == [] && b'.committed == b.committed && BufferInv(b', limits)
  {
  }

  // ----- what a failure leads to -----

  /** The last attempt left, with output generated, is kept for continuing the stream. */
  predicate Reserved(f: Failure) {
    f.generatedOutput && f.attemptsRemaining == 1
  }

  /** Which way a failure goes.  It is replayed from the start exactly when it is retryable, an attempt that is not reserved is
      left, the stream had opened, there is no complete tool call to salvage, and the client cannot tell: nothing was released
      yet or nothing was generated.  A retryable failure after output goes on midstream otherwise, with an attempt or a tool
      call to salvage.  A replay starts afresh, and the other two leave the stream as it is. */
  lemma {:induction false} FailuresGoExactly(l: Life, limits: Limits, f: Failure)
    requires Inv(l, limits) && Honest(l, Fail(f))
    ensures var action, l' := Decide(f, l.buffer).action, Step(l, limits, Fail(f));
            && (action.EarlyRetry? <==>
                  && f.retryable && f.attemptsRemaining > 0 && !Reserved(f) && f.streamOpened && !f.salvageable
                  && (!l.buffer.committed || !f.generatedOutput))
            && (action.MidstreamRecovery? <==>
                  !action.EarlyRetry? && f.retryable && f.generatedOutput && (f.attemptsRemaining > 0 || f.salvageable))
            && (action.EarlyRetry? ==>
                  && l'.buffer == FreshBuffer() && l'.attempt == l.attempt + 1 && l'.client == l.client && l.attempt in l'.retried)
            && (!action.EarlyRetry? ==> l' == l)
    ensures var d := Decide(f, l.buffer);
            d.retryable == f.retryable && d.committed == l.buffer.committed && (d.hasBuffered <==> l.emitted != l.pushed)
  {
  }

  /** A final error is reported exactly when the failure is not retryable, or nothing is left
      to try: no salvageable output, and no attempt that could replay or continue. */
  lemma {:induction false} FinalErrorExactly(f: Failure, b: Buffer)
    ensures Decide(f, b).action.FinalError? <==>
              || !f.retryable
              || (f.generatedOutput && f.attemptsRemaining <= 0 && !f.salvageable)
              || (!f.generatedOutput && (f.attemptsRemaining <= 0 || !f.streamOpened || f.salvageable))
    ensures f.generatedOutput && f.retryable && f.attemptsRemaining > 0 ==> !Decide(f, b).action.FinalError?
  {
  }

  // ----- the objects -----

  class RecoveryHoldbackBuffer {
    const limits: Limits
    var events: seq<Event>
    var bytes: nat
    var startedAt: Option<real>
    var committed: bool

    ghost function View(): Buffer
      reads this
    {
      Buffer(events, bytes, startedAt, committed)
    }

    ghost predicate Valid()
      reads this
    {
      BufferInv(View(), limits)
    }

    constructor (limits: Limits)
      ensures Valid() && View() == FreshBuffer() && this.limits == limits
    {
      this.limits := limits;
      events, bytes, startedAt, committed := [], 0, None, false;
    }

    method Push(e: Event, now: real, later: real) returns (out: seq<Event>)
      requires Valid()
      modifies this
      ensures Valid() && (View(), out) == Pushed(old(View()), limits, e, now, later)
    {
      PushKeepsBuffer(View(), limits, e, now, later);
      if committed {
        return [e];
      }
      if startedAt.None? {
        startedAt := Some(now);
      }
      events := events + [e];
      bytes := bytes + (if IsAscii(e.text) then |e.text| else EncodedLength(e.text));
      if bytes >= limits.maxBytes || later - startedAt.value >= limits.holdback {
        out := FlushNow();
      } else {
        out := [];
      }
    }

    method FlushNow() returns (out: seq<Event>)
      modifies this
      ensures (View(), out) == Flushed(old(View()))
    {
      if committed {
        return [];
      }
      committed := true;
      out := events;
      events, bytes, startedAt := [], 0, None;
    }

    method Discard()
      requires Valid()
      modifies this
      ensures Valid() && View() == Discarded(old(View()))
    {
      events, bytes, startedAt := [], 0, None;
    }

    /** Time left before a started, uncommitted buffer must be released. */
    function RemainingDelay(now: real): (r: Option<real>)
      reads this
      requires Valid()
      ensures r.Some? <==> !committed && events != []
      ensures r.Some? ==> r.value >= 0.0 && (r.value == 0.0 <==> now - startedAt.value >= limits.holdback)
    {
      if committed || startedAt.None? then None
      else
        var left := limits.holdback - (now - startedAt.value);
        Some(if left < 0.0 then 0.0 else left)
    }
  }

  /** Owns the buffer across attempts; `life` is the history its promises are about. */
  class RecoveryController {
    var holdback: RecoveryHoldbackBuffer
    ghost var life: Life

    ghost predicate Valid()
      reads this, holdback
    {
      Inv(life, DefaultLimits()) && life.buffer == holdback.View() && holdback.limits == DefaultLimits()
    }

    constructor ()
      ensures Valid() && life == Start() && fresh(holdback)
    {
      holdback := new RecoveryHoldbackBuffer(DefaultLimits());
      life := Start();
      new;
      StartInv(DefaultLimits());
    }

    method PushEvent(e: Event, now: real, later: real) returns (out: seq<Event>)
      requires Valid()
      modifies this`life, holdback
      ensures Valid() && life == Step(old(life), DefaultLimits(), Push(e, now, later))
      ensures life.client == old(life).client + Tagged(old(life).attempt, out)
    {
      StepKeepsInv(life, DefaultLimits(), Push(e, now, later));
      out := holdback.Push(e, now, later);
      life := Step(life, DefaultLimits(), Push(e, now, later));
    }

    method FlushAll() returns (out: seq<Event>)
      requires Valid()
      modifies this`life, holdback
      ensures Valid() && life == Step(old(life), DefaultLimits(), Flush)
      ensures life.client == old(life).client + Tagged(old(life).attempt, out)
      ensures out == old(life).buffer.events && life.buffer.committed
    {
      StepKeepsInv(life, DefaultLimits(), Flush);
      out := holdback.FlushNow();
      life := Step(life, DefaultLimits(), Flush);
    }

    method DiscardHeld()
      requires Valid()
      modifies this`life, holdback
      ensures Valid() && life == Step(old(life), DefaultLimits(), Discard)
      ensures life.client == old(life).client
    {
      StepKeepsInv(life, DefaultLimits(), Discard);
      holdback.Discard();
      life := Step(life, DefaultLimits(), Discard);
    }

    /** Releases what an unrecoverable failure left uncommitted. */
    method FlushUncommitted(decision: Decision) returns (out: seq<Event>)
      requires Valid()
      modifies this`life, holdback
      ensures Valid()
      ensures if !decision.committed && decision.hasBuffered
              then out == old(life).buffer.events && life == Step(old(life), DefaultLimits(), Flush)
              else out == [] && life == old(life)
    {
      if !decision.committed && decision.hasBuffered {
        out := FlushAll();
      } else {
        out := [];
      }
    }

    /** The decision on a failed attempt; an early retry starts over with a new buffer. */
    method AdvanceFailure(f: Failure) returns (decision: Decision)
      requires Valid() && Honest(life, Fail(f))
      modifies this, holdback
      ensures Valid() && decision == Decide(f, old(life).buffer)
      ensures life == Step(old(life), DefaultLimits(), Fail(f)) && life.client == old(life).client
      ensures decision.action.EarlyRetry? ==> !HasContent(old(life).emitted) && life.buffer == FreshBuffer() && fresh(holdback)
      ensures !decision.action.EarlyRetry? ==> holdback == old(holdback)
    {
      StepKeepsInv(life, DefaultLimits(), Fail(f));
      EarlyRetryIsInvisible(life, DefaultLimits(), f);
      var committed := holdback.committed;
      var hasBuffered := holdback.events != [];
      var available := f.attemptsRemaining > 0;
      var reserved := f.generatedOutput && f.attemptsRemaining == 1;
      life := Step(life, DefaultLimits(), Fail(f));
      if f.retryable && available && f.streamOpened && (!committed || !f.generatedOutput) && !f.salvageable && !reserved {
        holdback.Discard();
        holdback := new RecoveryHoldbackBuffer(DefaultLimits());
        return Decision(EarlyRetry, true, committed, hasBuffered);
      }
      if f.retryable && f.generatedOutput && (available || f.salvageable) {
        return Decision(MidstreamRecovery, true, committed, hasBuffered);
      }
      return Decision(FinalError, f.retryable, committed, hasBuffered);
    }
  }
}
