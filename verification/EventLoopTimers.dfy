/** Timers over whole runs: what fires, what can never fire again, and what
    the counters mean. */
module EventLoopTimers {
  import opened Wrappers
  import opened EventLoop
  import opened EventLoopInvariants

  // ----- Generations only grow and ids are never reused -----

  ghost predicate Ages<H, V>(s: State<H, V>, r: State<H, V>) {
    && r.nextId >= s.nextId
    && (forall id :: id in r.tasks && id < s.nextId ==>
          id in s.tasks && r.tasks[id].generation >= s.tasks[id].generation)
  }

  lemma AgesTransitive<H, V>(a: State<H, V>, b: State<H, V>, c: State<H, V>)
    requires Ages(a, b) && Ages(b, c)
    ensures Ages(a, c)
  {
  }

  /** What queueing does to a state, apart from the timers. */
  lemma MarkEffect<H, V>(s: State<H, V>, id: TaskId, front: bool)
    ensures MarkQueued(s, id, front) ==
            s.(tasks := MarkQueued(s, id, front).tasks,
               ready := MarkQueued(s, id, front).ready,
               microtasks := MarkQueued(s, id, front).microtasks)
    ensures id !in s.tasks ==> MarkQueued(s, id, front) == s
    ensures id in s.tasks ==>
              MarkQueued(s, id, front).tasks == s.tasks[id := s.tasks[id].(readyRequested := true, queued := true)]
  {
  }

  ghost predicate SetsOne<H, V>(s: State<H, V>, r: State<H, V>, id: TaskId) {
    && r.nextId == s.nextId
    && r.tasks.Keys == s.tasks.Keys
    && (forall x :: x in s.tasks && x != id ==> r.tasks[x] == s.tasks[x])
  }

  lemma FireEffect<H, V>(s: State<H, V>, id: TaskId)
    ensures SetsOne(s, Fire(s, id), id)
    ensures id in s.tasks ==>
              Fire(s, id).tasks[id].generation == s.tasks[id].generation + if s.tasks[id].pending.None? then 1 else 0
  {
    hide Invalidate, CompactTimers;
    if id in s.tasks && s.tasks[id].pending.None? {
      var woken := SetTask(s, id, Woken(s.tasks[id], Resume(s.idle)));
      MarkEffect(Invalidate(woken, s.tasks[id].timerGeneration.Some?), id, false);
    } else {
      MarkEffect(s, id, false);
    }
  }

  lemma EnqueueEffect<H, V>(s: State<H, V>, id: TaskId, activation: Activation<V>, front: bool)
    ensures SetsOne(s, Enqueue(s, id, activation, front), id)
    ensures id in s.tasks ==>
              Enqueue(s, id, activation, front).tasks[id].generation ==
              s.tasks[id].generation + if s.tasks[id].queued || s.tasks[id].readyRequested then 0 else 1
  {
    hide Invalidate, CompactTimers;
    if id in s.tasks && !s.tasks[id].queued && !s.tasks[id].readyRequested {
      var woken := Disarm(SetTask(s, id, Woken(s.tasks[id], activation)), id);
      MarkEffect(Invalidate(woken, s.tasks[id].timerGeneration.Some?), id, front);
    }
  }

  lemma FireAges<H, V>(s: State<H, V>, id: TaskId)
    ensures Ages(s, Fire(s, id))
  {
    hide Fire;
    FireEffect(s, id);
  }

  lemma TaskOpAges<H, V>(s: State<H, V>, op: Op<H, V>)
    requires || op.OpSpawn? || op.OpSpawnArmed? || op.OpArmTimer? || op.OpParkOnTimer?
             || op.OpUnreference? || op.OpReference? || op.OpCancel? || op.OpWake?
    ensures Ages(s, Apply(s, op))
  {
    hide Invalidate, CompactTimers, MarkQueued, Enqueue;
    match op {
      case OpSpawn(coroutine, arguments, microtask) =>
        MarkEffect(InsertTask(s, coroutine, arguments, microtask), s.nextId, false);
      case OpWake(id, activation, front) => EnqueueEffect(s, id, activation, front);
      case _ =>
    }
  }

  lemma {:induction false} WakeKeysAge<H, V>(s: State<H, V>, keys: seq<TaskId>)
    ensures Ages(s, WakeKeys(s, keys))
    decreases |keys|
  {
    if keys != [] {
      FireAges(Disarm(s, keys[0]), keys[0]);
      WakeKeysAge(WakeKey(s, keys[0]), keys[1..]);
      AgesTransitive(s, WakeKey(s, keys[0]), WakeKeys(s, keys));
    }
  }

  lemma PopExpiredAges<H, V>(s: State<H, V>)
    requires s.timers != []
    ensures Ages(s, PopExpired(s))
  {
    hide Fire;
    if Live(s.tasks, s.timers[0]) {
      FireAges(PopLive(s), s.timers[0].id);
    }
  }

  lemma {:induction false} WakeExpiredAges<H, V>(s: State<H, V>, now: int)
    ensures Ages(s, WakeExpired(s, now))
    decreases |s.timers|
  {
    if s.timers != [] && s.timers[0].deadline <= now {
      PopExpiredAges(s);
      WakeExpiredAges(PopExpired(s), now);
      AgesTransitive(s, PopExpired(s), WakeExpired(s, now));
    }
  }

  lemma {:induction false} PruneOnlyTimers<H, V>(s: State<H, V>)
    ensures PruneHead(s) == s.(timers := PruneHead(s).timers, staleTimers := PruneHead(s).staleTimers)
    ensures LiveOnly(s.tasks, PruneHead(s).timers) == LiveOnly(s.tasks, s.timers)
    decreases |s.timers|
  {
    if s.timers != [] && !Live(s.tasks, s.timers[0]) {
      PruneOnlyTimers(PopStale(s));
    }
  }

  lemma HandleAges<H, V>(s: State<H, V>, readiness: Option<seq<TaskId>>, now: int)
    ensures Ages(s, HandleReadiness(s, readiness, now))
  {
    if readiness.Some? {
      var woken := WakeKeys(s, readiness.value);
      WakeKeysAge(s, readiness.value);
      WakeExpiredAges(woken, now);
      AgesTransitive(s, woken, WakeExpired(woken, now));
    }
  }

  lemma {:induction false} NextQueuedAges<H, V>(s: State<H, V>, microtask: bool)
    ensures Ages(s, NextQueued(s, microtask).0)
    decreases |QueueOf(s, microtask)|
  {
    var queue := QueueOf(s, microtask);
    if queue != [] {
      var popped := PopQueue(s, microtask);
      if queue[0] !in s.tasks {
        NextQueuedAges(popped, microtask);
      } else {
        var task := s.tasks[queue[0]].(queued := false);
        NextQueuedAges(SetTask(popped, queue[0], task), microtask);
        NextQueuedAges(SetTask(popped, queue[0], task.(readyRequested := false)), microtask);
      }
    }
  }

  lemma ApplyAges<H, V>(s: State<H, V>, op: Op<H, V>)
    ensures Ages(s, Apply(s, op))
  {
    hide WakeExpired, WakeKeys, NextQueued, HandleReadiness, PruneHead;
    if || op.OpSpawn? || op.OpSpawnArmed? || op.OpArmTimer? || op.OpParkOnTimer?
       || op.OpUnreference? || op.OpReference? || op.OpCancel? || op.OpWake? {
      TaskOpAges(s, op);
      return;
    }
    match op {
      case OpPoll(readiness, now) =>
        PruneOnlyTimers(s);
        HandleAges(PruneHead(s), readiness, now);
      case OpPollNonblocking(readiness, now) =>
        WakeExpiredAges(s, now);
        HandleAges(s, readiness, now);
      case OpNextMicrotask => NextQueuedAges(s, true);
      case OpNextReady => NextQueuedAges(s, false);
      case OpNext =>
        NextQueuedAges(s, true);
        NextQueuedAges(NextQueued(s, true).0, false);
      case _ =>
    }
  }

  lemma {:induction false} RunAges<H, V>(s: State<H, V>, ops: seq<Op<H, V>>)
    ensures Ages(s, Run(s, ops))
    decreases |ops|
  {
    if ops != [] {
      ApplyAges(s, ops[0]);
      RunAges(Apply(s, ops[0]), ops[1..]);
      AgesTransitive(s, Apply(s, ops[0]), Run(s, ops));
    }
  }

  /** No stale wake: once a task was woken, no timer armed for it before fires
      in any continuation. */
  lemma NoStaleWake<H, V>(
    s: State<H, V>, id: TaskId, activation: Activation<V>, front: bool, ops: seq<Op<H, V>>, t: Timer)
    requires Inv(s) && id in s.tasks && !s.tasks[id].queued && !s.tasks[id].readyRequested
    requires t in s.timers && t.id == id
    ensures !Live(Run(Enqueue(s, id, activation, front), ops).tasks, t)
  {
    hide Enqueue, Run;
    assert Known(s, t);
    EnqueueEffect(s, id, activation, front);
    RunAges(Enqueue(s, id, activation, front), ops);
  }

  /** The same when a descriptor or a timer did the waking. */
  lemma NoStaleFire<H, V>(s: State<H, V>, id: TaskId, ops: seq<Op<H, V>>, t: Timer)
    requires Inv(s) && id in s.tasks && s.tasks[id].pending.None?
    requires t in s.timers && t.id == id
    ensures !Live(Run(Fire(s, id), ops).tasks, t)
  {
    hide Fire, Run;
    assert Known(s, t);
    FireEffect(s, id);
    RunAges(Fire(s, id), ops);
  }

  // ----- One expiry pass fires exactly the due tasks -----

  ghost predicate Due<H, V>(s: State<H, V>, now: int, id: TaskId) {
    exists t :: t in s.timers && t.id == id && t.deadline <= now && Live(s.tasks, t)
  }

  /** A task whose timer came due: resumed unless something was pending already. */
  function Fired<H, V>(task: Task<H, V>, idle: V): Task<H, V> {
    var idling := task.pending.None?;
    Task(task.coroutine, if idling then Some(Resume(idle)) else task.pending, true, task.microtask, task.referenced,
         true, if idling then task.generation + 1 else task.generation, None)
  }

  function Newly<H, V>(tasks: map<TaskId, Task<H, V>>, ids: seq<TaskId>, microtask: bool): seq<TaskId> {
    if ids == [] then []
    else
      var id := ids[0];
      (if id in tasks && !tasks[id].queued && tasks[id].microtask == microtask then [id] else [])
      + Newly(tasks, ids[1..], microtask)
  }

  /** The tasks an expiry pass fires, in the order of their deadlines. */
  function FiringOrder<H, V>(s: State<H, V>, now: int): seq<TaskId>
    decreases |s.timers|
  {
    if s.timers == [] || s.timers[0].deadline > now then []
    else (if Live(s.tasks, s.timers[0]) then [s.timers[0].id] else []) + FiringOrder(PopExpired(s), now)
  }

  lemma PopExpiredIs<H, V>(s: State<H, V>)
    requires s.timers != []
    ensures var t := s.timers[0]; var r := PopExpired(s);
            && r.timers == s.timers[1..] && r.idle == s.idle
            && (if Live(s.tasks, t) then
                  && r.tasks == s.tasks[t.id := Fired(s.tasks[t.id], s.idle)]
                  && r.ready == s.ready + Newly(s.tasks, [t.id], false)
                  && r.microtasks == s.microtasks + Newly(s.tasks, [t.id], true)
                else r.tasks == s.tasks && r.ready == s.ready && r.microtasks == s.microtasks)
  {
    hide Fire, Fired;
    var t := s.timers[0];
    if Live(s.tasks, t) {
      DisarmedFires(PopLive(s), t.id);
      FiredAgain(s, t.id);
      var task := s.tasks[t.id];
      assert Newly(s.tasks, [t.id], task.microtask) == if task.queued then [] else [t.id];
      assert Newly(s.tasks, [t.id], !task.microtask) == [];
      assert PopExpired(s).tasks == s.tasks[t.id := Fired(task, s.idle)];
    }
  }

  lemma FiredAgain<H, V>(s: State<H, V>, id: TaskId)
    requires id in s.tasks
    ensures Fired(s.tasks[id].(timerGeneration := None), s.idle) == Fired(s.tasks[id], s.idle)
  {
  }

  /** Firing a task with no timer set touches no timer. */
  lemma DisarmedFires<H, V>(s: State<H, V>, id: TaskId)
    requires id in s.tasks && s.tasks[id].timerGeneration.None?
    ensures Fire(s, id).tasks == s.tasks[id := Fired(s.tasks[id], s.idle)]
    ensures Fire(s, id) == s.(
              tasks := Fire(s, id).tasks, ready := Fire(s, id).ready, microtasks := Fire(s, id).microtasks)
    ensures QueueOf(Fire(s, id), s.tasks[id].microtask) ==
            QueueOf(s, s.tasks[id].microtask) + if s.tasks[id].queued then [] else [id]
    ensures QueueOf(Fire(s, id), !s.tasks[id].microtask) == QueueOf(s, !s.tasks[id].microtask)
  {
    var task := s.tasks[id];
    if task.pending.None? {
      var woken := SetTask(s, id, Woken(task, Resume(s.idle)));
      assert Invalidate(woken, false) == woken;
      MarkEffect(woken, id, false);
    } else {
      MarkEffect(s, id, false);
    }
  }

  lemma FiredIsDisarmed<H, V>(s: State<H, V>)
    ensures forall id :: id in s.tasks ==> Fired(s.tasks[id], s.idle).timerGeneration.None?
  {
  }

  lemma DueSteps<H, V>(s: State<H, V>, now: int, id: TaskId)
    requires s.timers != [] && s.timers[0].deadline <= now
    ensures Due(s, now, id) <==> (Live(s.tasks, s.timers[0]) && s.timers[0].id == id) || Due(PopExpired(s), now, id)
    ensures Live(s.tasks, s.timers[0]) ==> !Due(PopExpired(s), now, s.timers[0].id)
  {
    hide PopExpired, Fired, Newly;
    PopExpiredIs(s);
    FiredIsDisarmed(s);
    var head, r := s.timers[0], PopExpired(s);
    assert s.timers == [head] + s.timers[1..];
    if Due(s, now, id) {
      var t :| t in s.timers && t.id == id && t.deadline <= now && Live(s.tasks, t);
      if t in s.timers[1..] && !(Live(s.tasks, head) && head.id == id) {
        assert Live(r.tasks, t);
      }
    }
    if Due(r, now, id) {
      var t :| t in r.timers && t.id == id && t.deadline <= now && Live(r.tasks, t);
      assert Live(s.tasks, t);
    }
  }

  /** Every task is fired at most once, exactly the due ones are, the rest are
      untouched, and what remains on the heap is not due. */
  lemma {:induction false} ExpiryIsExact<H, V>(s: State<H, V>, now: int, id: TaskId)
    requires Sorted(s.timers)
    ensures id in FiringOrder(s, now) <==> Due(s, now, id)
    ensures multiset(FiringOrder(s, now))[id] <= 1
    ensures Due(s, now, id) ==> id in s.tasks
    ensures id in WakeExpired(s, now).tasks <==> id in s.tasks
    ensures id in s.tasks ==>
              WakeExpired(s, now).tasks[id] == if Due(s, now, id) then Fired(s.tasks[id], s.idle) else s.tasks[id]
    decreases |s.timers|
  {
    if s.timers == [] || s.timers[0].deadline > now {
      NothingDue(s, now, id);
    } else {
      PopExpiredIs(s);
      DueSteps(s, now, id);
      ExpiryIsExact(PopExpired(s), now, id);
      FiringOrderSteps(s, now, id);
    }
  }

  lemma NothingDue<H, V>(s: State<H, V>, now: int, id: TaskId)
    requires Sorted(s.timers) && (s.timers == [] || s.timers[0].deadline > now)
    ensures !Due(s, now, id) && forall t :: t in s.timers ==> t.deadline > now
  {
    forall t | t in s.timers
      ensures t.deadline > now
    {
      var i :| 0 <= i < |s.timers| && s.timers[i] == t;
      assert i > 0 ==> AtMost(s.timers[0], s.timers[i]);
    }
  }

  lemma FiringOrderSteps<H, V>(s: State<H, V>, now: int, id: TaskId)
    requires s.timers != [] && s.timers[0].deadline <= now
    ensures var first := if Live(s.tasks, s.timers[0]) then [s.timers[0].id] else [];
            && FiringOrder(s, now) == first + FiringOrder(PopExpired(s), now)
            && multiset(FiringOrder(s, now))[id] == multiset(first)[id] + multiset(FiringOrder(PopExpired(s), now))[id]
            && (id in FiringOrder(s, now) <==> id in first || id in FiringOrder(PopExpired(s), now))
  {
    var first := if Live(s.tasks, s.timers[0]) then [s.timers[0].id] else [];
    assert multiset(first + FiringOrder(PopExpired(s), now)) ==
           multiset(first) + multiset(FiringOrder(PopExpired(s), now));
  }

  lemma FiringOrderStops<H, V>(s: State<H, V>, now: int)
    requires s.timers == [] || s.timers[0].deadline > now
    ensures FiringOrder(s, now) == []
  {
  }

  /** The first of the task's entries that can fire. */
  ghost predicate FirstEntry<H, V>(s: State<H, V>, id: TaskId, t: Timer) {
    && t in s.timers && t.id == id && Live(s.tasks, t)
    && (forall u :: u in s.timers && u.id == id && Live(s.tasks, u) ==> t.deadline <= u.deadline)
  }

  /** Every task that fires has one, and it is due. */
  lemma FiringHasEntry<H, V>(s: State<H, V>, now: int, id: TaskId) returns (t: Timer)
    requires Sorted(s.timers) && id in FiringOrder(s, now)
    ensures FirstEntry(s, id, t) && t.deadline <= now
  {
    hide FiringOrder;
    ExpiryIsExact(s, now, id);
    var u :| u in s.timers && u.id == id && u.deadline <= now && Live(s.tasks, u);
    var k :| 0 <= k < |s.timers| && s.timers[k] == u;
    t := EarliestOf(s, id, k);
  }

  lemma {:induction false} EarliestOf<H, V>(s: State<H, V>, id: TaskId, k: nat) returns (t: Timer)
    requires Sorted(s.timers) && k < |s.timers| && s.timers[k].id == id && Live(s.tasks, s.timers[k])
    ensures FirstEntry(s, id, t) && t.deadline <= s.timers[k].deadline
    decreases k
  {
    if j :| 0 <= j < k && s.timers[j].id == id && Live(s.tasks, s.timers[j]) {
      assert AtMost(s.timers[j], s.timers[k]);
      t := EarliestOf(s, id, j);
    } else {
      t := s.timers[k];
      forall u | u in s.timers && u.id == id && Live(s.tasks, u)
        ensures t.deadline <= u.deadline
      {
        var j :| 0 <= j < |s.timers| && s.timers[j] == u;
        assert j > k ==> AtMost(s.timers[k], s.timers[j]);
      }
    }
  }

  lemma FirstEntrySteps<H, V>(s: State<H, V>, id: TaskId, t: Timer)
    requires s.timers != [] && FirstEntry(s, id, t) && (Live(s.tasks, s.timers[0]) ==> id != s.timers[0].id)
    ensures FirstEntry(PopExpired(s), id, t)
  {
    hide PopExpired, Fired;
    PopExpiredIs(s);
    assert s.timers == [s.timers[0]] + s.timers[1..];
    var r := PopExpired(s);
    assert r.tasks.Keys == s.tasks.Keys && (id in s.tasks ==> r.tasks[id] == s.tasks[id]);
  }

  /** Tasks fire in the order of their first deadlines. */
  lemma {:induction false} FiresByDeadline<H, V>(s: State<H, V>, now: int, i: nat, j: nat, a: Timer, b: Timer)
    requires Sorted(s.timers) && i < j < |FiringOrder(s, now)|
    requires FirstEntry(s, FiringOrder(s, now)[i], a) && FirstEntry(s, FiringOrder(s, now)[j], b)
    ensures a.deadline <= b.deadline
    decreases |s.timers|
  {
    hide PopExpired, FirstEntry, FiringOrder, Live, Sorted;
    var x, y := FiringOrder(s, now)[i], FiringOrder(s, now)[j];
    OrderSteps(s, now, i);
    OrderSteps(s, now, j);
    EntryAfterHead(s, y, b);
    if Live(s.tasks, s.timers[0]) && i == 0 {
      HeadIsFirst(s, a);
    } else {
      var shift := if Live(s.tasks, s.timers[0]) then 1 else 0;
      NotAgain(s, now, x);
      NotAgain(s, now, y);
      FirstEntrySteps(s, x, a);
      FirstEntrySteps(s, y, b);
      FiresByDeadline(PopExpired(s), now, i - shift, j - shift, a, b);
    }
  }

  /** The order is that of the rest of the heap, after its head if that is live. */
  lemma OrderSteps<H, V>(s: State<H, V>, now: int, k: nat)
    requires Sorted(s.timers) && k < |FiringOrder(s, now)|
    ensures s.timers != [] && s.timers[0].deadline <= now
    ensures Sorted(PopExpired(s).timers) && |PopExpired(s).timers| < |s.timers|
    ensures var shift := if Live(s.tasks, s.timers[0]) then 1 else 0;
            var order := FiringOrder(PopExpired(s), now);
            if k < shift then FiringOrder(s, now)[k] == s.timers[0].id
            else k - shift < |order| && FiringOrder(s, now)[k] == order[k - shift] && FiringOrder(s, now)[k] in order
  {
    hide PopExpired, Fired, Newly;
    PopExpiredIs(s);
  }

  lemma NotAgain<H, V>(s: State<H, V>, now: int, id: TaskId)
    requires Sorted(s.timers) && s.timers != [] && s.timers[0].deadline <= now && id in FiringOrder(PopExpired(s), now)
    ensures Live(s.tasks, s.timers[0]) ==> id != s.timers[0].id
  {
    hide PopExpired, FiringOrder, Due;
    PopExpiredIs(s);
    DueSteps(s, now, id);
    ExpiryIsExact(PopExpired(s), now, id);
  }

  lemma HeadIsFirst<H, V>(s: State<H, V>, a: Timer)
    requires s.timers != [] && Live(s.tasks, s.timers[0]) && FirstEntry(s, s.timers[0].id, a)
    ensures a.deadline <= s.timers[0].deadline
  {
    assert s.timers[0] in s.timers;
  }

  lemma EntryAfterHead<H, V>(s: State<H, V>, id: TaskId, b: Timer)
    requires Sorted(s.timers) && s.timers != [] && FirstEntry(s, id, b)
    ensures s.timers[0].deadline <= b.deadline
  {
    var k :| 0 <= k < |s.timers| && s.timers[k] == b;
    assert k > 0 ==> AtMost(s.timers[0], s.timers[k]);
  }

  /** Tasks not queued yet join their queue's end in the order they fire. */
  lemma {:induction false} ExpiryQueues<H, V>(s: State<H, V>, now: int, microtask: bool)
    requires Sorted(s.timers)
    ensures QueueOf(WakeExpired(s, now), microtask) ==
            QueueOf(s, microtask) + Newly(s.tasks, FiringOrder(s, now), microtask)
    decreases |s.timers|
  {
    hide PopExpired, FiringOrder, Fired, Due;
    if s.timers == [] || s.timers[0].deadline > now {
      FiringOrderStops(s, now);
    } else {
      var r, head := PopExpired(s), s.timers[0];
      PopExpiredIs(s);
      assert WakeExpired(s, now) == WakeExpired(r, now);
      ExpiryQueues(r, now, microtask);
      FiringOrderSteps(s, now, head.id);
      hide WakeExpired, Newly;
      if Live(s.tasks, head) {
        DueSteps(s, now, head.id);
        ExpiryIsExact(r, now, head.id);
        NewlyIgnores(s.tasks, head.id, r.tasks[head.id], FiringOrder(r, now), microtask);
        NewlyFirst(s.tasks, head.id, FiringOrder(r, now), microtask);
      } else {
        assert [] + FiringOrder(r, now) == FiringOrder(r, now);
      }
    }
  }

  lemma NewlyFirst<H, V>(tasks: map<TaskId, Task<H, V>>, id: TaskId, ids: seq<TaskId>, microtask: bool)
    ensures Newly(tasks, [id] + ids, microtask) == Newly(tasks, [id], microtask) + Newly(tasks, ids, microtask)
  {
    assert ([id] + ids)[1..] == ids && [id][1..] == [];
  }

  lemma {:induction false} NewlyIgnores<H, V>(
    tasks: map<TaskId, Task<H, V>>, id: TaskId, task: Task<H, V>, ids: seq<TaskId>, microtask: bool)
    requires id !in ids
    ensures Newly(tasks[id := task], ids, microtask) == Newly(tasks, ids, microtask)
  {
    if ids != [] {
      NewlyIgnores(tasks, id, task, ids[1..], microtask);
    }
  }

  // ----- The next deadline -----

  lemma {:induction false} PruneLeavesLiveHead<H, V>(s: State<H, V>)
    ensures PruneHead(s).timers == [] || Live(s.tasks, PruneHead(s).timers[0])
    ensures Sorted(s.timers) ==> Sorted(PruneHead(s).timers)
    decreases |s.timers|
  {
    if s.timers != [] && !Live(s.tasks, s.timers[0]) {
      PruneLeavesLiveHead(PopStale(s));
    }
  }

  /** The loop sleeps until the earliest live deadline, and forever exactly
      when no timer is set. */
  lemma NextDeadlineIsEarliest<H, V>(s: State<H, V>)
    requires Inv(s)
    ensures NextDeadline(s).None? <==> s.liveTimers == 0
    ensures NextDeadline(s).Some? ==>
              && (exists t :: t in s.timers && Live(s.tasks, t) && t.deadline == NextDeadline(s).value)
              && (forall t :: t in s.timers && Live(s.tasks, t) ==> NextDeadline(s).value <= t.deadline)
  {
    PruneLeavesLiveHead(s);
    PruneOnlyTimers(s);
    LiveOnlyKeeps(s.tasks, s.timers);
    var timers := PruneHead(s).timers;
    LiveOnlyKeeps(s.tasks, timers);
    ArmedAreLive(s);
    assert LiveOnly(s.tasks, s.timers) == LiveOnly(s.tasks, timers);
    if timers == [] {
      assert Ids(LiveOnly(s.tasks, s.timers)) == {};
    } else {
      var head := timers[0];
      assert head in timers;
      assert head in LiveOnly(s.tasks, s.timers);
      assert head.id in Ids(LiveOnly(s.tasks, s.timers));
      forall t | t in s.timers && Live(s.tasks, t)
        ensures head.deadline <= t.deadline
      {
        assert t in LiveOnly(s.tasks, timers);
        var i :| 0 <= i < |timers| && timers[i] == t;
        assert i > 0 ==> AtMost(timers[0], timers[i]);
      }
    }
  }

  // ----- Deadlock detection is sound -----

  /** Nothing queued is alive and nothing is armed. */
  ghost predicate Deadlocked<H, V>(s: State<H, V>) {
    Inv(s) && LiveQueue(s) == [] && !HasWakeSource(s)
  }

  predicate FromInside<H, V>(op: Op<H, V>) {
    op.OpPoll? || op.OpPollNonblocking? || op.OpNextMicrotask? || op.OpNextReady? || op.OpNext? || op.OpClearCurrent?
  }

  lemma NoArmedNoLive<H, V>(s: State<H, V>, t: Timer)
    requires Inv(s) && s.liveTimers == 0
    ensures !Live(s.tasks, t)
  {
    assert Live(s.tasks, t) ==> t.id in Armed(s.tasks);
  }

  lemma {:induction false} QuietExpiry<H, V>(s: State<H, V>, now: int)
    requires Inv(s) && s.liveTimers == 0
    ensures var r := WakeExpired(s, now);
            r == s.(timers := r.timers, staleTimers := r.staleTimers)
    decreases |s.timers|
  {
    if s.timers != [] && s.timers[0].deadline <= now {
      NoArmedNoLive(s, s.timers[0]);
      PopExpiredKeeps(s);
      QuietExpiry(PopExpired(s), now);
    }
  }

  lemma {:induction false} QuietKeys<H, V>(s: State<H, V>, keys: seq<TaskId>)
    requires s.waiters == map[]
    ensures WakeKeys(s, keys) == s
    decreases |keys|
  {
    if keys != [] {
      QuietKeys(s, keys[1..]);
    }
  }

  lemma QuietPoll<H, V>(s: State<H, V>, readiness: Option<seq<TaskId>>, now: int)
    requires Inv(s) && !HasWakeSource(s)
    ensures var r := HandleReadiness(s, readiness, now);
            r == s.(timers := r.timers, staleTimers := r.staleTimers)
  {
    if readiness.Some? {
      QuietKeys(s, readiness.value);
      QuietExpiry(s, now);
    }
  }

  lemma {:induction false} QuietQueue<H, V>(s: State<H, V>, microtask: bool)
    requires Inv(s) && LiveIds(s.tasks, QueueOf(s, microtask)) == []
    ensures var (r, found) := NextQueued(s, microtask);
            found.None? && r == s.(ready := r.ready, microtasks := r.microtasks)
            && QueueOf(r, microtask) == [] && QueueOf(r, !microtask) == QueueOf(s, !microtask)
    decreases |QueueOf(s, microtask)|
  {
    if QueueOf(s, microtask) != [] {
      PopDeadKeeps(s, microtask);
      QuietQueue(PopQueue(s, microtask), microtask);
    }
  }

  /** Only an external wake or a new task can make progress: polling with any
      readiness at any time, and asking for activations, leaves every task as it
      is and activates nothing. */
  lemma DeadlockStays<H, V>(s: State<H, V>, op: Op<H, V>)
    requires Deadlocked(s) && FromInside(op)
    ensures Apply(s, op).tasks == s.tasks && Deadlocked(Apply(s, op))
    ensures Next(s).1.None?
  {
    ApplyKeeps(s, op);
    NextActivatesInOrder(s);
    DeadlockKeepsTasks(s, op);
  }

  lemma DeadlockKeepsTasks<H, V>(s: State<H, V>, op: Op<H, V>)
    requires Deadlocked(s) && FromInside(op)
    ensures var r := Apply(s, op);
            r.tasks == s.tasks && LiveQueue(r) == [] && r.liveTimers == s.liveTimers && r.waiters == s.waiters
  {
    hide Inv, PruneHead, WakeExpired, WakeKeys, NextQueued;
    PruneOnlyTimers(s);
    match op {
      case OpPoll(readiness, now) =>
        PruneKeeps(s);
        QuietPoll(PruneHead(s), readiness, now);
      case OpPollNonblocking(readiness, now) =>
        QuietExpiry(s, now);
        QuietPoll(s, readiness, now);
      case OpNextMicrotask => QuietQueue(s, true);
      case OpNextReady => QuietQueue(s, false);
      case OpNext =>
        QuietQueue(s, true);
        NextQueuedKeeps(s, true);
        QuietQueue(NextQueued(s, true).0, false);
      case OpClearCurrent =>
    }
  }

  lemma {:induction false} DeadlockForever<H, V>(s: State<H, V>, ops: seq<Op<H, V>>)
    requires Deadlocked(s) && forall k :: 0 <= k < |ops| ==> FromInside(ops[k])
    ensures Run(s, ops).tasks == s.tasks && Deadlocked(Run(s, ops)) && Next(Run(s, ops)).1.None?
    decreases |ops|
  {
    hide Inv;
    if ops == [] {
      DeadlockStays(s, OpClearCurrent);
    } else {
      DeadlockStays(s, ops[0]);
      DeadlockForever(Apply(s, ops[0]), ops[1..]);
    }
  }
}
