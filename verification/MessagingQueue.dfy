/** The compacting delivery queue: a later task for a queued key replaces the earlier one
    and inherits everyone waiting for it. */
module MessagingQueue {
  import opened Common

  type Key = string
  type Func = nat
  type Future = nat

  /** How a future ended, or that it has not. */
  datatype Outcome = Waiting | Result(value: string) | Failed(error: string) | Cancelled

  datatype Task = Task(func: Func, futures: seq<Future>)

  /** What happened to the queue, oldest first. */
  datatype Event =
    | Enqueued(key: Key, func: Func, future: Future, front: bool)
    | Dequeued(key: Key, task: Task)

  /** `order` and `tasks` are the queue; `active` is what the worker holds; `futures` is the
      state of every future ever accepted. */
  datatype Queue = Queue(
    order: seq<Key>,
    tasks: map<Key, Task>,
    active: seq<Future>,
    futures: map<Future, Outcome>,
    closed: bool,
    log: seq<Event>)

  function Empty(): Queue {
    Queue([], map[], [], map[], false, [])
  }

  // ----- the operations, on values -----

  function Enqueue(q: Queue, key: Key, func: Func, future: Future, front: bool): Queue {
    var e := Enqueued(key, func, future, front);
    var order := if key in q.tasks then q.order else if front then [key] + q.order else q.order + [key];
    q.(order := order, tasks := Merge(q.tasks, e), futures := q.futures[future := Waiting], log := q.log + [e])
  }

  function Dequeue(q: Queue): (Queue, Task)
    requires q.order != [] && q.order[0] in q.tasks
  {
    var key := q.order[0];
    var task := q.tasks[key];
    (q.(order := q.order[1..], tasks := q.tasks - {key}, active := task.futures, log := q.log + [Dequeued(key, task)]), task)
  }

  /** Delivering an outcome touches only futures still waiting. */
  function Delivered(futures: map<Future, Outcome>, to: seq<Future>, outcome: Outcome): map<Future, Outcome> {
    map f | f in futures :: if f in to && futures[f].Waiting? then outcome else futures[f]
  }

  /** The worker hands one outcome to everyone merged into the task, then holds nobody. */
  function Settle(q: Queue, outcome: Outcome): Queue {
    q.(futures := Delivered(q.futures, q.active, outcome), active := [])
  }

  /** A caller gives up on its own future. */
  function GiveUp(q: Queue, future: Future): Queue {
    q.(futures := Delivered(q.futures, [future], Cancelled))
  }

  ghost function Queued(q: Queue): set<Future> {
    set k, f | k in q.tasks && f in q.tasks[k].futures :: f
  }

  ghost function Shutdown(q: Queue): Queue {
    q.(order := [], tasks := map[], closed := true,
       futures := map f | f in q.futures ::
                    if (f in Queued(q) || f in q.active) && q.futures[f].Waiting? then Cancelled else q.futures[f])
  }

  // ----- what the log says, independently of the queue -----

  /** The enqueues of a key since it was last dequeued. */
  function Since(log: seq<Event>, key: Key): seq<Event> {
    if log == [] then []
    else
      var last, rest := log[|log| - 1], log[..|log| - 1];
      if last.key != key then Since(rest, key)
      else if last.Dequeued? then []
      else Since(rest, key) + [last]
  }

  /** Where a waiting key stands: by the position of its first enqueue since it was last
      dequeued; one enqueued at the front goes before all that were there. */
  function Rank(log: seq<Event>, key: Key): int {
    if log == [] then 0
    else
      var last, rest := log[|log| - 1], log[..|log| - 1];
      if last.key == key && last.Enqueued? && Since(rest, key) == []
      then (if last.front then -1 - |rest| else |rest|)
      else Rank(rest, key)
  }

  function FuturesOf(events: seq<Event>): (r: seq<Future>)
    requires forall i | 0 <= i < |events| :: events[i].Enqueued?
    ensures |r| == |events| && forall i | 0 <= i < |r| :: r[i] == events[i].future
  {
    seq(|events|, i requires 0 <= i < |events| => events[i].future)
  }

  // ----- the invariant -----

  ghost predicate Holds(q: Queue, key: Key, i: nat, f: Future) {
    key in q.tasks && i < |q.tasks[key].futures| && q.tasks[key].futures[i] == f
  }

  /** The deque has no duplicates and lists exactly the dictionary's keys. */
  ghost predicate OrderInv(q: Queue) {
    && (forall i, j | 0 <= i < j < |q.order| :: q.order[i] != q.order[j])
    && (forall k :: k in q.order <==> k in q.tasks)
  }

  /** Each waiting key's task is what the log says: the last function enqueued since the key
      was last dequeued, for the futures of all of those enqueues. */
  ghost predicate CompactionInv(q: Queue) {
    forall k :: Compacted(q.tasks, k, Since(q.log, k))
  }

  ghost predicate Compacted(tasks: map<Key, Task>, k: Key, since: seq<Event>) {
    && (forall i | 0 <= i < |since| :: since[i].Enqueued? && since[i].key == k)
    && (k in tasks <==> since != [])
    && (k in tasks ==> tasks[k] == Task(since[|since| - 1].func, FuturesOf(since)))
  }

  function Ranks(log: seq<Event>, order: seq<Key>): (r: seq<int>)
    ensures |r| == |order| && forall i | 0 <= i < |r| :: r[i] == Rank(log, order[i])
  {
    seq(|order|, i requires 0 <= i < |order| => Rank(log, order[i]))
  }

  ghost predicate Ascending(ranks: seq<int>, n: int) {
    && (forall i, j | 0 <= i < j < |ranks| :: ranks[i] < ranks[j])
    && (forall i | 0 <= i < |ranks| :: -n <= ranks[i] < n)
  }

  /** The queue is in order of first enqueue. */
  ghost predicate RankInv(q: Queue) {
    Ascending(Ranks(q.log, q.order), |q.log|)
  }

  /** A future is held at one place at most, and one still waiting is held. */
  ghost predicate FutureInv(q: Queue) {
    && (forall k, i, l, j, f | Holds(q, k, i, f) && Holds(q, l, j, f) :: k == l && i == j)
    && (forall k, i, f | Holds(q, k, i, f) :: f in q.futures && f !in q.active)
    && (forall i, j | 0 <= i < j < |q.active| :: q.active[i] != q.active[j])
    && (forall f | f in q.active :: f in q.futures)
    && (forall f | f in q.futures && q.futures[f].Waiting? :: f in q.active || exists k, i :: Holds(q, k, i, f))
    && (q.closed ==> q.order == [] && forall f | f in q.futures :: !q.futures[f].Waiting?)
  }

  ghost predicate Inv(q: Queue) {
    OrderInv(q) && CompactionInv(q) && RankInv(q) && FutureInv(q)
  }

  lemma {:induction false} EmptyInv()
    ensures Inv(Empty())
  {
  }

  lemma {:induction false} LogAppend(log: seq<Event>, e: Event, key: Key)
    ensures Since(log + [e], key) ==
            if e.key != key then Since(log, key) else if e.Dequeued? then [] else Since(log, key) + [e]
    ensures Rank(log + [e], key) ==
            if e.key == key && e.Enqueued? && Since(log, key) == [] then (if e.front then -1 - |log| else |log|)
            else Rank(log, key)
  {
    assert (log + [e])[..|log|] == log;
  }

  lemma {:induction false} EnqueueKeepsOrder(q: Queue, key: Key, func: Func, future: Future, front: bool)
    requires OrderInv(q)
    ensures OrderInv(Enqueue(q, key, func, future, front))
  {
  }

  lemma {:induction false} MergedFutures(since: seq<Event>, e: Event)
    requires e.Enqueued? && forall i | 0 <= i < |since| :: since[i].Enqueued?
    ensures FuturesOf(since + [e]) == FuturesOf(since) + [e.future]
  {
  }

  function Merge(tasks: map<Key, Task>, e: Event): map<Key, Task>
    requires e.Enqueued?
  {
    if e.key in tasks then tasks[e.key := Task(e.func, tasks[e.key].futures + [e.future])]
    else tasks[e.key := Task(e.func, [e.future])]
  }

  lemma {:induction false} CompactedAfter(tasks: map<Key, Task>, k: Key, since: seq<Event>, e: Event)
    requires e.Enqueued? && Compacted(tasks, k, since)
    ensures Compacted(Merge(tasks, e), k, if k == e.key then since + [e] else since)
  {
    if k == e.key { MergedFutures(since, e); }
  }

  lemma {:induction false} EnqueueKeepsCompaction(q: Queue, key: Key, func: Func, future: Future, front: bool)
    requires CompactionInv(q)
    ensures CompactionInv(Enqueue(q, key, func, future, front))
  {
    var q' := Enqueue(q, key, func, future, front);
    var e := Enqueued(key, func, future, front);
    hide Compacted;
    forall k ensures Compacted(q'.tasks, k, Since(q'.log, k)) {
      assert Compacted(q.tasks, k, Since(q.log, k));
      LogAppend(q.log, e, k);
      CompactedAfter(q.tasks, k, Since(q.log, k), e);
    }
  }

  /** An enqueue ranks its own key if that waited for nothing, and no other key. */
  lemma {:induction false} RankAppend(log: seq<Event>, e: Event, k: Key)
    requires e.Enqueued?
    ensures Rank(log + [e], k) ==
            if k == e.key && Since(log, k) == [] then (if e.front then -1 - |log| else |log|) else Rank(log, k)
  {
    assert (log + [e])[..|log|] == log;
  }

  /** A new key's rank lies before or behind all others. */
  lemma {:induction false} AscendingMore(ranks: seq<int>, n: nat)
    requires Ascending(ranks, n)
    ensures Ascending(ranks, n + 1) && Ascending([-1 - n] + ranks, n + 1) && Ascending(ranks + [n], n + 1)
  {
    var front, back := [-1 - n] + ranks, ranks + [n];
    forall i, j | 0 <= i < j < |front| ensures front[i] < front[j] {
      assert front[j] == ranks[j - 1];
      assert i > 0 ==> front[i] == ranks[i - 1];
    }
  }

  lemma {:induction false} EnqueueKeepsRank(q: Queue, key: Key, func: Func, future: Future, front: bool)
    requires OrderInv(q) && CompactionInv(q) && RankInv(q)
    ensures RankInv(Enqueue(q, key, func, future, front))
  {
    hide CompactionInv, Ascending, Rank, Since, Merge;
    var q' := Enqueue(q, key, func, future, front);
    var e := Enqueued(key, func, future, front);
    SinceEmpty(q, key);
    forall i | 0 <= i < |q.order| ensures Rank(q'.log, q.order[i]) == Rank(q.log, q.order[i]) {
      assert q.order[i] in q.order;
      RankAppend(q.log, e, q.order[i]);
    }
    AscendingMore(Ranks(q.log, q.order), |q.log|);
    if key in q.tasks {
      assert Ranks(q'.log, q'.order) == Ranks(q.log, q.order);
    } else {
      RankAppend(q.log, e, key);
      assert Ranks(q'.log, q'.order)
             == if front then [-1 - |q.log|] + Ranks(q.log, q.order) else Ranks(q.log, q.order) + [|q.log|];
    }
  }

  lemma {:induction false} SinceEmpty(q: Queue, key: Key)
    requires CompactionInv(q)
    ensures key in q.tasks <==> Since(q.log, key) != []
  {
    assert Compacted(q.tasks, key, Since(q.log, key));
  }

  lemma {:induction false} EnqueueKeepsFutures(q: Queue, key: Key, func: Func, future: Future, front: bool)
    requires FutureInv(q) && !q.closed && future !in q.futures
    ensures FutureInv(Enqueue(q, key, func, future, front))
  {
    var q' := Enqueue(q, key, func, future, front);
    var last := |q'.tasks[key].futures| - 1;
    assert Holds(q', key, last, future);
    forall k, i, f | Holds(q', k, i, f) ensures if k == key && i == last then f == future else Holds(q, k, i, f) {
    }
    forall k, i, f | Holds(q, k, i, f) ensures Holds(q', k, i, f) {
    }
  }

  lemma {:induction false} EnqueueKeepsInv(q: Queue, key: Key, func: Func, future: Future, front: bool)
    requires Inv(q) && !q.closed && future !in q.futures
    ensures Inv(Enqueue(q, key, func, future, front))
  {
    hide OrderInv, CompactionInv, RankInv, FutureInv, Enqueue;
    EnqueueKeepsOrder(q, key, func, future, front);
    EnqueueKeepsCompaction(q, key, func, future, front);
    EnqueueKeepsRank(q, key, func, future, front);
    EnqueueKeepsFutures(q, key, func, future, front);
  }

  lemma {:induction false} DequeueKeepsOrder(q: Queue)
    requires OrderInv(q) && q.order != []
    ensures q.order[0] in q.tasks && OrderInv(Dequeue(q).0)
  {
    assert q.order[0] in q.order;
    var q' := Dequeue(q).0;
    forall k ensures k in q'.order <==> k in q'.tasks {
      assert k in q.order <==> k == q.order[0] || k in q.order[1..];
    }
  }

  lemma {:induction false} DequeueKeepsCompaction(q: Queue)
    requires CompactionInv(q) && q.order != [] && q.order[0] in q.tasks
    ensures CompactionInv(Dequeue(q).0)
  {
    var q' := Dequeue(q).0;
    var e := Dequeued(q.order[0], q.tasks[q.order[0]]);
    forall k ensures Compacted(q'.tasks, k, Since(q'.log, k)) {
      assert Compacted(q.tasks, k, Since(q.log, k));
      LogAppend(q.log, e, k);
    }
  }

  lemma {:induction false} DequeueKeepsRank(q: Queue)
    requires OrderInv(q) && RankInv(q) && q.order != [] && q.order[0] in q.tasks
    ensures RankInv(Dequeue(q).0)
  {
    var q' := Dequeue(q).0;
    forall k ensures Rank(q'.log, k) == Rank(q.log, k) {
      LogAppend(q.log, Dequeued(q.order[0], q.tasks[q.order[0]]), k);
    }
  }

  lemma {:induction false} DequeueKeepsFutures(q: Queue)
    requires FutureInv(q) && q.order != [] && q.order[0] in q.tasks && q.active == []
    ensures FutureInv(Dequeue(q).0)
  {
    var key := q.order[0];
    var q' := Dequeue(q).0;
    forall k, i, f | Holds(q', k, i, f) ensures Holds(q, k, i, f) && k != key {
    }
    forall i | 0 <= i < |q'.active| ensures Holds(q, key, i, q'.active[i]) {
    }
    forall f | f in q'.futures && q'.futures[f].Waiting? ensures f in q'.active || exists k, i :: Holds(q', k, i, f) {
      var k, i :| Holds(q, k, i, f);
      if k != key { assert Holds(q', k, i, f); }
    }
  }

  lemma {:induction false} DequeueKeepsInv(q: Queue)
    requires Inv(q) && q.order != [] && q.active == []
    ensures q.order[0] in q.tasks && Inv(Dequeue(q).0)
  {
    hide CompactionInv, RankInv, FutureInv, OrderInv, Dequeue;
    DequeueKeepsOrder(q);
    DequeueKeepsCompaction(q);
    DequeueKeepsRank(q);
    DequeueKeepsFutures(q);
  }

  lemma {:induction false} SettleKeepsInv(q: Queue, outcome: Outcome)
    requires Inv(q) && !outcome.Waiting?
    ensures Inv(Settle(q, outcome))
  {
    hide CompactionInv, RankInv, OrderInv;
    var q' := Settle(q, outcome);
    assert CompactionInv(q') && RankInv(q') && OrderInv(q') by {
      SameQueue(q, q');
    }
    forall k, i, f | Holds(q', k, i, f) ensures Holds(q, k, i, f) {
    }
    forall k, i, f | Holds(q, k, i, f) ensures Holds(q', k, i, f) {
    }
  }

  lemma {:induction false} SameQueue(q: Queue, q': Queue)
    requires OrderInv(q) && CompactionInv(q) && RankInv(q)
    requires q'.order == q.order && q'.tasks == q.tasks && q'.log == q.log
    ensures OrderInv(q') && CompactionInv(q') && RankInv(q')
  {
  }

  lemma {:induction false} GiveUpKeepsInv(q: Queue, future: Future)
    requires Inv(q)
    ensures Inv(GiveUp(q, future))
  {
    hide CompactionInv, RankInv, OrderInv;
    var q' := GiveUp(q, future);
    assert CompactionInv(q') && RankInv(q') && OrderInv(q') by {
      SameQueue(q, q');
    }
    forall k, i, f | Holds(q', k, i, f) ensures Holds(q, k, i, f) {
    }
    forall k, i, f | Holds(q, k, i, f) ensures Holds(q', k, i, f) {
    }
  }

  /** One outcome reaches every merged future that is still waiting, and nobody else. */
  lemma {:induction false} SettleReachesAllMerged(q: Queue, outcome: Outcome, f: Future)
    requires Inv(q) && f in q.futures && !outcome.Waiting?
    ensures Settle(q, outcome).futures[f] == if f in q.active && q.futures[f].Waiting? then outcome else q.futures[f]
    ensures f in q.active ==> !Settle(q, outcome).futures[f].Waiting?
  {
  }

  /** Shutdown leaves no accepted future waiting. */
  lemma {:induction false} ShutdownResolvesAll(q: Queue)
    requires FutureInv(q)
    ensures Shutdown(q).futures.Keys == q.futures.Keys
    ensures forall f | f in Shutdown(q).futures :: !Shutdown(q).futures[f].Waiting?
    ensures forall f | f in q.futures && !q.futures[f].Waiting? :: Shutdown(q).futures[f] == q.futures[f]
  {
    forall f | f in q.futures && q.futures[f].Waiting? ensures f in Queued(q) || f in q.active {
      if f !in q.active {
        var k, i :| Holds(q, k, i, f);
        assert k in q.tasks && f in q.tasks[k].futures;
      }
    }
  }

  /** After shutdown the queue's log is cut short: the tasks dropped are never dequeued. */
  ghost predicate ClosedInv(q: Queue) {
    q.closed && q.order == [] && q.tasks == map[] && forall f | f in q.futures :: !q.futures[f].Waiting?
  }

  // ----- runs -----

  datatype Action =
    | DoEnqueue(key: Key, func: Func, future: Future, front: bool)
    | DoDequeue
    | DoSettle(outcome: Outcome)
    | DoGiveUp(future: Future)
    | DoShutdown

  /** Accepted or possible steps; an enqueue on a closed queue is refused and changes nothing. */
  ghost predicate Enabled(q: Queue, a: Action) {
    match a
    case DoEnqueue(_, _, future, _) => !q.closed && future !in q.futures
    case DoDequeue => !q.closed && q.order != [] && q.order[0] in q.tasks && q.active == []
    case DoSettle(outcome) => !outcome.Waiting?
    case _ => true
  }

  ghost function Step(q: Queue, a: Action): Queue
    requires Enabled(q, a)
  {
    match a
    case DoEnqueue(key, func, future, front) => Enqueue(q, key, func, future, front)
    case DoDequeue => Dequeue(q).0
    case DoSettle(outcome) => Settle(q, outcome)
    case DoGiveUp(future) => GiveUp(q, future)
    case DoShutdown => Shutdown(q)
  }

  ghost predicate LegalRun(q: Queue, run: seq<Action>)
    decreases |run|
  {
    run == [] || (Enabled(q, run[0]) && LegalRun(Step(q, run[0]), run[1..]))
  }

  ghost function After(q: Queue, run: seq<Action>): Queue
    requires LegalRun(q, run)
    decreases |run|
  {
    if run == [] then q else After(Step(q, run[0]), run[1..])
  }

  ghost predicate OpenOrClosed(q: Queue) {
    if q.closed then ClosedInv(q) else Inv(q)
  }

  lemma {:induction false} StepKeepsInv(q: Queue, a: Action)
    requires OpenOrClosed(q) && Enabled(q, a)
    ensures OpenOrClosed(Step(q, a)) && (q.closed ==> Step(q, a).closed)
    ensures q.futures.Keys <= Step(q, a).futures.Keys
  {
    if !q.closed {
      hide Inv;
      InvParts(q);
      match a {
        case DoEnqueue(key, func, future, front) => EnqueueKeepsInv(q, key, func, future, front);
        case DoDequeue => DequeueKeepsInv(q);
        case DoSettle(outcome) => SettleKeepsInv(q, outcome);
        case DoGiveUp(future) => GiveUpKeepsInv(q, future);
        case DoShutdown => ShutdownResolvesAll(q);
      }
    }
  }

  lemma {:induction false} InvParts(q: Queue)
    requires Inv(q)
    ensures FutureInv(q) && OrderInv(q) && CompactionInv(q) && RankInv(q)
  {
  }

  lemma {:induction false} RunKeepsInv(q: Queue, run: seq<Action>)
    requires OpenOrClosed(q) && LegalRun(q, run)
    ensures OpenOrClosed(After(q, run)) && (q.closed ==> After(q, run).closed)
    ensures q.futures.Keys <= After(q, run).futures.Keys
    decreases |run|
  {
    hide OpenOrClosed, Step;
    if run != [] {
      StepKeepsInv(q, run[0]);
      RunKeepsInv(Step(q, run[0]), run[1..]);
    }
  }

  /** What a run asked of the queue, read off its actions alone: each accepted enqueue as the caller made it, and each
      dequeue with the key that was taken. */
  ghost function Recorded(q: Queue, run: seq<Action>): seq<Event>
    requires LegalRun(q, run)
    decreases |run|
  {
    if run == [] then []
    else
      (match run[0]
       case DoEnqueue(key, func, future, front) => [Enqueued(key, func, future, front)]
       case DoDequeue => [Dequeued(q.order[0], q.tasks[q.order[0]])]
       case _ => []) + Recorded(Step(q, run[0]), run[1..])
  }

  lemma {:induction false} LogIsTheRecord(q: Queue, run: seq<Action>)
    requires LegalRun(q, run)
    ensures After(q, run).log == q.log + Recorded(q, run)
    decreases |run|
  {
    if run != [] {
      LogIsTheRecord(Step(q, run[0]), run[1..]);
    }
  }

  lemma {:induction false} DequeueFollowsTheLog(q: Queue)
    requires Inv(q) && q.order != []
    ensures q.order[0] in q.tasks
    ensures var key, since, task := q.order[0], Since(q.log, q.order[0]), Dequeue(q).1;
            && since != [] && (forall i | 0 <= i < |since| :: since[i].Enqueued? && since[i].key == key)
            && task.func == since[|since| - 1].func && task.futures == FuturesOf(since)
            && forall k | Since(q.log, k) != [] && k != key :: Rank(q.log, key) < Rank(q.log, k)
  {
    hide FutureInv;
    DequeueKeepsOrder(q);
    assert CompactionInv(q) && Compacted(q.tasks, q.order[0], Since(q.log, q.order[0]));
    forall k | Since(q.log, k) != [] && k != q.order[0] ensures Rank(q.log, q.order[0]) < Rank(q.log, k) {
      SinceEmpty(q, k);
      assert k in q.order;
      var i :| 0 <= i < |q.order| && q.order[i] == k;
      assert 0 < i;
    }
  }

  /** The compaction law, over every run: the worker takes the key that stands first by its earliest enqueue since it was
      last taken (an enqueue at the front before all that were there), with the function of the last of those enqueues,
      for the futures of all of them. */
  lemma {:induction false} DequeueTakesLatestForAll(run: seq<Action>)
    requires LegalRun(Empty(), run) && Enabled(After(Empty(), run), DoDequeue)
    ensures var q, record := After(Empty(), run), Recorded(Empty(), run);
            var key, task := q.order[0], Dequeue(q).1;
            var since := Since(record, key);
            && since != [] && (forall i | 0 <= i < |since| :: since[i].Enqueued? && since[i].key == key)
            && task.func == since[|since| - 1].func && task.futures == FuturesOf(since)
            && (forall k | Since(record, k) != [] && k != key :: Rank(record, key) < Rank(record, k))
            && (forall k :: Since(record, k) != [] <==> k in q.order)
  {
    hide Inv, LegalRun, After, Recorded;
    EmptyInv();
    RunKeepsInv(Empty(), run);
    LogIsTheRecord(Empty(), run);
    var q := After(Empty(), run);
    assert q.log == Recorded(Empty(), run);
    DequeueFollowsTheLog(q);
    forall k ensures Since(q.log, k) != [] <==> k in q.order {
      InvParts(q);
      SinceEmpty(q, k);
    }
  }

  /** What a step does to a future: nothing to one that is done; to a waiting one, the outcome of the task the worker
      holds for it, or a cancellation by its caller or by shutdown. */
  lemma {:induction false} StepKeepsOutcomes(q: Queue, a: Action)
    requires Enabled(q, a)
    ensures forall f | f in q.futures && !q.futures[f].Waiting? ::
              f in Step(q, a).futures && Step(q, a).futures[f] == q.futures[f]
    ensures forall f | f in q.futures && q.futures[f].Waiting? ::
              f in Step(q, a).futures &&
              Step(q, a).futures[f] == if a.DoSettle? && f in q.active then a.outcome
                                       else if a == DoGiveUp(f) || (a.DoShutdown? && (f in q.active || f in Queued(q))) then Cancelled
                                       else Waiting
  {
  }

  /** Over every run an outcome is final: a future that is done stays as it ended. */
  lemma {:induction false} OutcomesAreFinal(q: Queue, run: seq<Action>, f: Future)
    requires LegalRun(q, run) && f in q.futures && !q.futures[f].Waiting?
    ensures f in After(q, run).futures && After(q, run).futures[f] == q.futures[f]
    decreases |run|
  {
    hide Step;
    if run != [] {
      StepKeepsOutcomes(q, run[0]);
      OutcomesAreFinal(Step(q, run[0]), run[1..], f);
    }
  }

  /** Over every run: until shutdown, each accepted future is waiting in exactly one queued
      task, or with the worker, or is done; once shut down, no accepted future is waiting. */
  lemma {:induction false} NoFutureIsLost(run: seq<Action>, f: Future)
    requires LegalRun(Empty(), run) && f in After(Empty(), run).futures
    ensures var q := After(Empty(), run);
            && (q.closed ==> !q.futures[f].Waiting?)
            && (!q.closed ==> Inv(q))
            && (q.futures[f].Waiting? ==> f in q.active || exists k, i :: Holds(q, k, i, f))
            && (!q.closed ==> forall k, i, l, j | Holds(q, k, i, f) && Holds(q, l, j, f) :: k == l && i == j)
            && (!q.closed && f in q.active ==> !exists k, i :: Holds(q, k, i, f))
  {
    EmptyInv();
    RunKeepsInv(Empty(), run);
    var q := After(Empty(), run);
    if !q.closed { InvParts(q); }
  }

  // ----- the object -----

  class CompactingQueue {
    var order: seq<Key>
    var tasks: map<Key, Task>
    var active: seq<Future>
    var futures: map<Future, Outcome>
    var closed: bool
    ghost var log: seq<Event>

    ghost function View(): Queue
      reads this
    {
      Queue(order, tasks, active, futures, closed, log)
    }

    ghost predicate Valid()
      reads this
    {
      OpenOrClosed(View())
    }

    constructor ()
      ensures Valid() && View() == Empty()
    {
      order, tasks, active, futures, closed, log := [], map[], [], map[], false, [];
      new;
      EmptyInv();
    }

    /** Refuses work once closed, or while no worker is running; otherwise merges it into a queued key or appends it. */
    method EnqueueInternal(key: Key, func: Func, future: Future, front: bool, working: bool) returns (accepted: bool)
      requires Valid() && future !in futures
      modifies this
      ensures Valid() && accepted == (!old(closed) && working)
      ensures View() == if accepted then Enqueue(old(View()), key, func, future, front) else old(View())
    {
      hide OpenOrClosed;
      if closed {
        return false;
      }
      if !working {
        return false;
      }
      StepKeepsInv(View(), DoEnqueue(key, func, future, front));
      if key in tasks {
        var waiting := tasks[key].futures;
        waiting := waiting + [future];
        tasks := tasks[key := Task(func, waiting)];
      } else {
        tasks := tasks[key := Task(func, [future])];
        if front {
          order := [key] + order;
        } else {
          order := order + [key];
        }
      }
      futures := futures[future := Waiting];
      log := log + [Enqueued(key, func, future, front)];
      accepted := true;
    }

    /** The worker takes the next task. */
    method TakeNext() returns (task: Task)
      requires Valid() && !closed && order != [] && active == []
      modifies this
      ensures Valid() && old(order)[0] in old(tasks) && (View(), task) == Dequeue(old(View()))
    {
      hide Inv, OrderInv, CompactionInv, RankInv, FutureInv;
      InvParts(View());
      DequeueKeepsOrder(View());
      StepKeepsInv(View(), DoDequeue);
      var key := order[0];
      order := order[1..];
      task := tasks[key];
      tasks := tasks - {key};
      active := task.futures;
      log := log + [Dequeued(key, task)];
    }

    /** Sets every future of the list that is not done. */
    method SettleEach(to: seq<Future>, outcome: Outcome)
      requires forall f | f in to :: f in futures
      requires !outcome.Waiting?
      modifies this`futures
      ensures futures == Delivered(old(futures), to, outcome)
    {
      ghost var before := futures;
      for i := 0 to |to|
        invariant futures == Delivered(before, to[..i], outcome)
      {
        assert to[..i + 1] == to[..i] + [to[i]];
        var f := to[i];
        if futures[f].Waiting? {
          futures := futures[f := outcome];
        }
        assert futures == Delivered(before, to[..i + 1], outcome);
      }
      assert to[..|to|] == to;
    }

    /** The worker's task ended: a result, an error or a cancellation goes to all merged. */
    method Deliver(outcome: Outcome)
      requires Valid() && !outcome.Waiting? && forall f | f in active :: f in futures
      modifies this
      ensures Valid() && View() == Settle(old(View()), outcome)
    {
      StepKeepsInv(View(), DoSettle(outcome));
      SettleEach(active, outcome);
      active := [];
    }

    /** Cancels queued and active futures and refuses everything from then on. */
    method Close()
      requires Valid() && forall f | f in active :: f in futures
      modifies this
      ensures Valid() && View() == Shutdown(old(View()))
      ensures forall f | f in futures :: !futures[f].Waiting?
    {
      hide OpenOrClosed;
      StepKeepsInv(View(), DoShutdown);
      ghost var before := View();
      ClosedIsResolved(before);
      QueuedAreAccepted(before);
      closed := true;
      CancelQueued();
      ghost var mid := futures;
      SettleEach(active, Cancelled);
      ShutdownFutures(before, mid);
      order, tasks := [], map[];
    }

    method CancelQueued()
      requires forall k, f | k in tasks && f in tasks[k].futures :: f in futures
      modifies this`futures
      ensures futures == Swept(old(futures), tasks, tasks.Keys)
    {
      var keys := tasks.Keys;
      assert futures == Swept(futures, tasks, tasks.Keys - keys);
      while keys != {}
        invariant keys <= tasks.Keys && futures == Swept(old(futures), tasks, tasks.Keys - keys)
        decreases keys
      {
        var key :| key in keys;
        SweptStep(old(futures), tasks, tasks.Keys - keys, key);
        SettleEach(tasks[key].futures, Cancelled);
        assert tasks.Keys - (keys - {key}) == (tasks.Keys - keys) + {key};
        keys := keys - {key};
      }
      assert tasks.Keys - keys == tasks.Keys;
    }
  }

  ghost predicate InAny(tasks: map<Key, Task>, keys: set<Key>, f: Future) {
    exists k :: k in keys && k in tasks && f in tasks[k].futures
  }

  /** The futures after those of some keys' tasks have been cancelled. */
  ghost function Swept(futures: map<Future, Outcome>, tasks: map<Key, Task>, keys: set<Key>): map<Future, Outcome> {
    map f | f in futures :: if InAny(tasks, keys, f) && futures[f].Waiting? then Cancelled else futures[f]
  }

  lemma {:induction false} SweptStep(futures: map<Future, Outcome>, tasks: map<Key, Task>, keys: set<Key>, key: Key)
    requires key in tasks
    ensures Delivered(Swept(futures, tasks, keys), tasks[key].futures, Cancelled) == Swept(futures, tasks, keys + {key})
  {
    forall f | f in futures
      ensures InAny(tasks, keys + {key}, f) <==> InAny(tasks, keys, f) || f in tasks[key].futures
    {
      if InAny(tasks, keys, f) {
        var k :| k in keys && k in tasks && f in tasks[k].futures;
        assert k in keys + {key};
      }
      if f in tasks[key].futures { assert key in keys + {key}; }
    }
  }

  lemma {:induction false} ShutdownFutures(q: Queue, mid: map<Future, Outcome>)
    requires mid == Swept(q.futures, q.tasks, q.tasks.Keys)
    ensures Delivered(mid, q.active, Cancelled) == Shutdown(q).futures
  {
    forall f | f in q.futures ensures f in Queued(q) <==> InAny(q.tasks, q.tasks.Keys, f) {
    }
  }

  lemma {:induction false} ClosedIsResolved(q: Queue)
    requires OpenOrClosed(q)
    ensures forall f | f in Shutdown(q).futures :: !Shutdown(q).futures[f].Waiting?
  {
    if !q.closed {
      InvParts(q);
      ShutdownResolvesAll(q);
    }
  }

  lemma {:induction false} QueuedAreAccepted(q: Queue)
    requires OpenOrClosed(q)
    ensures forall k, f | k in q.tasks && f in q.tasks[k].futures :: f in q.futures
  {
    if !q.closed {
      InvParts(q);
      forall k, f | k in q.tasks && f in q.tasks[k].futures ensures f in q.futures {
        var i :| 0 <= i < |q.tasks[k].futures| && q.tasks[k].futures[i] == f;
        assert Holds(q, k, i, f);
      }
    }
  }
}
