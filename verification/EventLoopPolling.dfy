/** What a turn of the poller does: whose wait ends, who is resumed, and in which
    order they are queued. */
module EventLoopPolling {
  import opened Sequences
  import opened Wrappers
  import opened EventLoop
  import opened EventLoopInvariants
  import opened EventLoopTimers

  // ----- What a poll promises -----

  /** The ready keys something waited on, each once, in the order reported. */
  function Waited(waiters: map<TaskId, Descriptor>, keys: seq<TaskId>): seq<TaskId> {
    if keys == [] then []
    else if keys[0] in waiters then [keys[0]] + Waited(waiters - {keys[0]}, keys[1..])
    else Waited(waiters, keys[1..])
  }

  /** A task after the poll. One that waited on a ready key or whose timer was due
      is queued, and resumed in its next generation if nothing was pending; any
      other is as before. */
  ghost function PolledTask<H, V>(s: State<H, V>, keys: seq<TaskId>, now: int, id: TaskId): Task<H, V>
    requires id in s.tasks
  {
    var task := s.tasks[id];
    var waited, due, idling := id in keys && id in s.waiters, Due(s, now, id), task.pending.None?;
    if !waited && !due then task
    else
      Task(task.coroutine, if idling then Some(Resume(s.idle)) else task.pending, true, task.microtask, task.referenced,
           true, if idling then task.generation + 1 else task.generation,
           if idling || due then None else task.timerGeneration)
  }

  /** A task of this kind that was not queued. */
  ghost predicate Unqueued<H, V>(s: State<H, V>, id: TaskId, microtask: bool) {
    id in s.tasks && !s.tasks[id].queued && s.tasks[id].microtask == microtask
  }

  /** What joined the queue: `early` for ready keys in the order reported, then
      `late` for due timers in the order of their deadlines. */
  ghost predicate Joined<H, V>(
    s: State<H, V>, keys: seq<TaskId>, now: int, microtask: bool, early: seq<TaskId>, late: seq<TaskId>)
  {
    && Distinct(early + late)
    && (forall id :: id in early <==> id in keys && id in s.waiters && Unqueued(s, id, microtask))
    && (forall i, j :: 0 <= i < j < |early| ==> MetBefore(keys, early[i], early[j]))
    && (forall id :: id in late <==> Due(s, now, id) && Unqueued(s, id, microtask) && id !in early)
    && (forall i, j, a, b :: 0 <= i < j < |late| && FirstEntry(s, late[i], a) && FirstEntry(s, late[j], b) ==>
          a.deadline <= b.deadline)
  }

  /** The first report of `x` comes before any of `y`. */
  ghost predicate MetBefore(keys: seq<TaskId>, x: TaskId, y: TaskId) {
    exists k :: 0 <= k < |keys| && keys[k] == x && y !in keys[..k]
  }

  ghost predicate QueueJoined<H, V>(s: State<H, V>, keys: seq<TaskId>, now: int, microtask: bool, r: State<H, V>) {
    exists early, late ::
      Joined(s, keys, now, microtask, early, late) && QueueOf(r, microtask) == QueueOf(s, microtask) + early + late
  }

  ghost predicate Polled<H, V>(s: State<H, V>, keys: seq<TaskId>, now: int, r: State<H, V>) {
    && r.tasks.Keys == s.tasks.Keys
    && (forall id :: id in s.tasks ==> r.tasks[id] == PolledTask(s, keys, now, id))
    && (forall id :: id in r.waiters <==> id in s.waiters && id !in keys)
    && (forall id :: id in r.waiters ==> r.waiters[id] == s.waiters[id])
    && (forall id :: id in r.registrations <==> id in s.registrations && !(id in keys && id in s.waiters))
    && (forall id :: id in r.registrations ==> r.registrations[id] == s.registrations[id])
    && QueueJoined(s, keys, now, false, r) && QueueJoined(s, keys, now, true, r)
    && r.current == s.current && r.nextId == s.nextId && r.idle == s.idle && r.referencedTasks == s.referencedTasks
  }

  // ----- One key -----

  /** A task whose descriptor is ready. */
  function Readied<H, V>(task: Task<H, V>, idle: V): Task<H, V> {
    var idling := task.pending.None?;
    Task(task.coroutine, if idling then Some(Resume(idle)) else task.pending, true, task.microtask, task.referenced,
         true, if idling then task.generation + 1 else task.generation, if idling then None else task.timerGeneration)
  }

  /** The entries that matter stay. */
  ghost predicate LiveKept<H, V>(timers: seq<Timer>, r: State<H, V>) {
    && Sorted(r.timers)
    && (forall t :: t in r.timers ==> t in timers)
    && (forall t :: t in timers && Live(r.tasks, t) ==> t in r.timers)
  }

  lemma InvalidateKeepsLive<H, V>(s: State<H, V>, armed: bool)
    requires Sorted(s.timers)
    ensures LiveKept(s.timers, Invalidate(s, armed))
  {
    LiveOnlyKeeps(s.tasks, s.timers);
  }

  lemma MarkIs<H, V>(s: State<H, V>, id: TaskId)
    requires id in s.tasks
    ensures var r := MarkQueued(s, id, false); var task := s.tasks[id];
            && r == s.(tasks := s.tasks[id := task.(queued := true, readyRequested := true)],
                       ready := r.ready, microtasks := r.microtasks)
            && QueueOf(r, task.microtask) == QueueOf(s, task.microtask) + (if task.queued then [] else [id])
            && QueueOf(r, !task.microtask) == QueueOf(s, !task.microtask)
  {
  }

  ghost predicate SameRest<H, V>(s: State<H, V>, r: State<H, V>) {
    r.current == s.current && r.nextId == s.nextId && r.idle == s.idle && r.referencedTasks == s.referencedTasks
  }

  lemma FireIs<H, V>(s: State<H, V>, id: TaskId)
    requires id in s.tasks && Sorted(s.timers)
    ensures var r := Fire(s, id); var task := s.tasks[id];
            && r.tasks == s.tasks[id := Readied(task, s.idle)]
            && r.waiters == s.waiters && r.registrations == s.registrations && SameRest(s, r)
            && LiveKept(s.timers, r)
            && QueueOf(r, task.microtask) == QueueOf(s, task.microtask) + (if task.queued then [] else [id])
            && QueueOf(r, !task.microtask) == QueueOf(s, !task.microtask)
  {
    hide MarkQueued, Invalidate;
    var task := s.tasks[id];
    if task.pending.None? {
      var woken := SetTask(s, id, Woken(task, Resume(s.idle)));
      var armed := task.timerGeneration.Some?;
      InvalidateKeepsLive(woken, armed);
      MarkIs(Invalidate(woken, armed), id);
      var r := Fire(s, id);
      assert r.tasks == s.tasks[id := Readied(task, s.idle)];
      LiveIgnoresQueueing(Invalidate(woken, armed), r, id);
    } else {
      MarkIs(s, id);
      assert Fire(s, id).tasks == s.tasks[id := Readied(task, s.idle)];
    }
  }

  lemma LiveIgnoresQueueing<H, V>(s: State<H, V>, r: State<H, V>, id: TaskId)
    requires id in s.tasks && r.tasks == s.tasks[id := s.tasks[id].(queued := true, readyRequested := true)]
    ensures forall t :: Live(r.tasks, t) <==> Live(s.tasks, t)
  {
  }

  // ----- All keys -----

  ghost predicate TasksWoken<H, V>(s: State<H, V>, woken: seq<TaskId>, r: State<H, V>) {
    && r.tasks.Keys == s.tasks.Keys
    && (forall id :: id in s.tasks ==> r.tasks[id] == if id in woken then Readied(s.tasks[id], s.idle) else s.tasks[id])
  }

  ghost predicate WaitsEnded<H, V>(s: State<H, V>, woken: seq<TaskId>, r: State<H, V>) {
    && (forall id :: id in r.waiters <==> id in s.waiters && id !in woken)
    && (forall id :: id in r.waiters ==> r.waiters[id] == s.waiters[id])
    && (forall id :: id in r.registrations <==> id in s.registrations && id !in woken)
    && (forall id :: id in r.registrations ==> r.registrations[id] == s.registrations[id])
  }

  ghost predicate QueuesWoken<H, V>(s: State<H, V>, woken: seq<TaskId>, r: State<H, V>) {
    forall microtask :: QueueOf(r, microtask) == QueueOf(s, microtask) + Newly(s.tasks, woken, microtask)
  }

  ghost predicate KeysWoken<H, V>(s: State<H, V>, woken: seq<TaskId>, r: State<H, V>) {
    && TasksWoken(s, woken, r) && WaitsEnded(s, woken, r) && QueuesWoken(s, woken, r)
    && SameRest(s, r) && LiveKept(s.timers, r)
  }

  lemma {:induction false} WaitedIs(waiters: map<TaskId, Descriptor>, keys: seq<TaskId>, id: TaskId)
    ensures id in Waited(waiters, keys) <==> id in waiters && id in keys
  {
    if keys != [] {
      assert keys == [keys[0]] + keys[1..];
      WaitedIs(if keys[0] in waiters then waiters - {keys[0]} else waiters, keys[1..], id);
    }
  }

  lemma {:induction false} WaitedDistinct(waiters: map<TaskId, Descriptor>, keys: seq<TaskId>)
    ensures Distinct(Waited(waiters, keys))
  {
    if keys != [] {
      if keys[0] in waiters {
        var rest := Waited(waiters - {keys[0]}, keys[1..]);
        WaitedDistinct(waiters - {keys[0]}, keys[1..]);
        WaitedIs(waiters - {keys[0]}, keys[1..], keys[0]);
        assert forall j :: 0 <= j < |rest| ==> rest[j] in rest;
      } else {
        WaitedDistinct(waiters, keys[1..]);
      }
    }
  }

  lemma {:induction false} WaitedInOrder(waiters: map<TaskId, Descriptor>, keys: seq<TaskId>, i: nat, j: nat)
    requires i < j < |Waited(waiters, keys)|
    ensures MetBefore(keys, Waited(waiters, keys)[i], Waited(waiters, keys)[j])
  {
    var x, y := Waited(waiters, keys)[i], Waited(waiters, keys)[j];
    var tail := keys[1..];
    if keys[0] in waiters && i == 0 {
      assert keys[..0] == [];
      assert MetBefore(keys, x, y);
    } else {
      var shift := if keys[0] in waiters then 1 else 0;
      var others := if keys[0] in waiters then waiters - {keys[0]} else waiters;
      WaitedInOrder(others, tail, i - shift, j - shift);
      var k :| 0 <= k < |tail| && tail[k] == x && y !in tail[..k];
      WaitedIs(others, tail, y);
      assert Waited(others, tail)[j - shift] == y;
      assert keys[..k + 1] == [keys[0]] + tail[..k];
      assert keys[k + 1] == x && y !in keys[..k + 1];
    }
  }

  lemma FirstKey<H, V>(s: State<H, V>, key: TaskId)
    requires key in s.waiters && Sorted(s.timers)
    ensures KeysWoken(s, [key], WakeKey(s, key)) && Sorted(WakeKey(s, key).timers)
  {
    hide Fire, MarkQueued;
    var r, disarmed := WakeKey(s, key), Disarm(s, key);
    if key in s.tasks {
      FireIs(disarmed, key);
      var task := s.tasks[key];
      assert Newly(s.tasks, [key], task.microtask) == if task.queued then [] else [key];
      assert Newly(s.tasks, [key], !task.microtask) == [];
      forall microtask
        ensures QueueOf(r, microtask) == QueueOf(s, microtask) + Newly(s.tasks, [key], microtask)
      {
        assert microtask == task.microtask || microtask == !task.microtask;
      }
    } else {
      NoTaskToFire(disarmed, key);
      assert forall microtask :: Newly(s.tasks, [key], microtask) == [];
    }
  }

  lemma NoTaskToFire<H, V>(s: State<H, V>, id: TaskId)
    requires id !in s.tasks
    ensures Fire(s, id) == s
  {
  }

  lemma KeysCompose<H, V>(s: State<H, V>, a: State<H, V>, r: State<H, V>, key: TaskId, woken: seq<TaskId>)
    requires KeysWoken(s, [key], a) && KeysWoken(a, woken, r) && key !in woken
    ensures KeysWoken(s, [key] + woken, r)
  {
    TasksCompose(s, a, r, key, woken);
    WaitsCompose(s, a, r, key, woken);
    QueuesCompose(s, a, r, key, woken);
    LiveCompose(s, a, r, woken);
  }

  lemma TasksCompose<H, V>(s: State<H, V>, a: State<H, V>, r: State<H, V>, key: TaskId, woken: seq<TaskId>)
    requires TasksWoken(s, [key], a) && TasksWoken(a, woken, r) && key !in woken && SameRest(s, a)
    ensures TasksWoken(s, [key] + woken, r)
  {
    hide Readied;
    assert forall id :: id in [key] + woken <==> id == key || id in woken;
  }

  lemma WaitsCompose<H, V>(s: State<H, V>, a: State<H, V>, r: State<H, V>, key: TaskId, woken: seq<TaskId>)
    requires WaitsEnded(s, [key], a) && WaitsEnded(a, woken, r)
    ensures WaitsEnded(s, [key] + woken, r)
  {
    assert forall id :: id in [key] + woken <==> id == key || id in woken;
  }

  lemma QueuesCompose<H, V>(s: State<H, V>, a: State<H, V>, r: State<H, V>, key: TaskId, woken: seq<TaskId>)
    requires TasksWoken(s, [key], a) && QueuesWoken(s, [key], a) && QueuesWoken(a, woken, r) && key !in woken
    ensures QueuesWoken(s, [key] + woken, r)
  {
    hide QueueOf, Readied, Newly;
    forall microtask
      ensures QueueOf(r, microtask) == QueueOf(s, microtask) + Newly(s.tasks, [key] + woken, microtask)
    {
      NewlyFirst(s.tasks, key, woken, microtask);
      NewlySame(s.tasks, a.tasks, woken, microtask);
    }
  }

  /** Readying a task revives no entry. */
  lemma LiveCompose<H, V>(s: State<H, V>, a: State<H, V>, r: State<H, V>, woken: seq<TaskId>)
    requires LiveKept(s.timers, a) && LiveKept(a.timers, r) && TasksWoken(a, woken, r)
    ensures LiveKept(s.timers, r)
  {
    forall t | t in s.timers && Live(r.tasks, t)
      ensures t in r.timers
    {
      assert Live(a.tasks, t);
    }
  }

  lemma {:induction false} NewlySame<H, V>(
    tasks: map<TaskId, Task<H, V>>, tasks': map<TaskId, Task<H, V>>, ids: seq<TaskId>, microtask: bool)
    requires forall id :: id in ids ==> (id in tasks <==> id in tasks') && (id in tasks ==> tasks[id] == tasks'[id])
    ensures Newly(tasks, ids, microtask) == Newly(tasks', ids, microtask)
  {
    if ids != [] {
      NewlySame(tasks, tasks', ids[1..], microtask);
    }
  }

  lemma NoKeys<H, V>(s: State<H, V>)
    requires Sorted(s.timers)
    ensures KeysWoken(s, [], s)
  {
    assert forall microtask :: Newly(s.tasks, [], microtask) == [];
  }

  lemma {:induction false} KeysAre<H, V>(s: State<H, V>, keys: seq<TaskId>)
    requires Sorted(s.timers)
    ensures KeysWoken(s, Waited(s.waiters, keys), WakeKeys(s, keys))
    decreases |keys|
  {
    hide KeysWoken, WakeKey;
    if keys == [] {
      NoKeys(s);
    } else if keys[0] in s.waiters {
      var a := WakeKey(s, keys[0]);
      FirstKey(s, keys[0]);
      KeysAre(a, keys[1..]);
      DisarmedByKey(s, keys[0]);
      var woken := Waited(s.waiters - {keys[0]}, keys[1..]);
      WaitedIs(s.waiters - {keys[0]}, keys[1..], keys[0]);
      KeysCompose(s, a, WakeKeys(s, keys), keys[0], woken);
    } else {
      KeysAre(s, keys[1..]);
      NotWaiting(s, keys[0]);
    }
  }

  lemma DisarmedByKey<H, V>(s: State<H, V>, key: TaskId)
    requires key in s.waiters && Sorted(s.timers)
    ensures WakeKey(s, key).waiters == s.waiters - {key}
  {
    hide Fire, MarkQueued;
    if key in s.tasks {
      FireIs(Disarm(s, key), key);
    } else {
      NoTaskToFire(Disarm(s, key), key);
    }
  }

  lemma NotWaiting<H, V>(s: State<H, V>, key: TaskId)
    requires key !in s.waiters
    ensures WakeKey(s, key) == s
  {
  }

  // ----- Then the timers -----

  lemma {:induction false} ExpiryKeepsRest<H, V>(s: State<H, V>, now: int)
    ensures var r := WakeExpired(s, now);
            r.waiters == s.waiters && r.registrations == s.registrations && SameRest(s, r)
    decreases |s.timers|
  {
    hide Fire;
    if s.timers != [] && s.timers[0].deadline <= now {
      if Live(s.tasks, s.timers[0]) {
        FireKeepsRest(PopLive(s), s.timers[0].id);
      }
      ExpiryKeepsRest(PopExpired(s), now);
    }
  }

  lemma FireKeepsRest<H, V>(s: State<H, V>, id: TaskId)
    ensures var r := Fire(s, id);
            r.waiters == s.waiters && r.registrations == s.registrations && SameRest(s, r)
  {
  }

  /** Ready keys leave the other tasks' timers as due as they were. */
  lemma LiveAfterKeys<H, V>(s: State<H, V>, woken: seq<TaskId>, r: State<H, V>, t: Timer)
    requires TasksWoken(s, woken, r)
    ensures Live(r.tasks, t) <==> Live(s.tasks, t) && !(t.id in woken && s.tasks[t.id].pending.None?)
  {
  }

  lemma DueAfterKeys<H, V>(s: State<H, V>, woken: seq<TaskId>, r: State<H, V>, now: int, id: TaskId)
    requires TasksWoken(s, woken, r) && LiveKept(s.timers, r) && id in s.tasks
    ensures Due(r, now, id) <==> Due(s, now, id) && !(id in woken && s.tasks[id].pending.None?)
  {
    if Due(r, now, id) {
      var t :| t in r.timers && t.id == id && t.deadline <= now && Live(r.tasks, t);
      LiveAfterKeys(s, woken, r, t);
    }
    if Due(s, now, id) && !(id in woken && s.tasks[id].pending.None?) {
      var t :| t in s.timers && t.id == id && t.deadline <= now && Live(s.tasks, t);
      LiveAfterKeys(s, woken, r, t);
    }
  }

  lemma FirstAfterKeys<H, V>(s: State<H, V>, woken: seq<TaskId>, r: State<H, V>, id: TaskId, t: Timer)
    requires TasksWoken(s, woken, r) && LiveKept(s.timers, r) && id !in woken && FirstEntry(s, id, t)
    ensures FirstEntry(r, id, t)
  {
    hide Live;
    forall u: Timer | u.id == id
      ensures Live(r.tasks, u) <==> Live(s.tasks, u)
    {
      LiveAfterKeys(s, woken, r, u);
    }
  }

  lemma TasksPolled<H, V>(s: State<H, V>, keys: seq<TaskId>, mid: State<H, V>, now: int, id: TaskId)
    requires TasksWoken(s, Waited(s.waiters, keys), mid) && LiveKept(s.timers, mid) && SameRest(s, mid)
    requires id in s.tasks
    ensures id in WakeExpired(mid, now).tasks
    ensures WakeExpired(mid, now).tasks[id] == PolledTask(s, keys, now, id)
  {
    hide WakeExpired, FiringOrder, Due;
    ExpiryIsExact(mid, now, id);
    WaitedIs(s.waiters, keys, id);
    DueAfterKeys(s, Waited(s.waiters, keys), mid, now, id);
  }

  // ----- Who is queued, and where -----

  lemma {:induction false} NewlyIs<H, V>(
    tasks: map<TaskId, Task<H, V>>, ids: seq<TaskId>, microtask: bool, id: TaskId)
    ensures id in Newly(tasks, ids, microtask) <==>
            id in ids && id in tasks && !tasks[id].queued && tasks[id].microtask == microtask
  {
    if ids != [] {
      NewlyIs(tasks, ids[1..], microtask, id);
      assert ids == [ids[0]] + ids[1..];
    }
  }

  /** The members of `Newly` come from places in the list in the same order. */
  lemma {:induction false} NewlyPlaces<H, V>(
    tasks: map<TaskId, Task<H, V>>, ids: seq<TaskId>, microtask: bool, i: nat, j: nat) returns (k: nat, l: nat)
    requires i < j < |Newly(tasks, ids, microtask)|
    ensures k < l < |ids|
    ensures ids[k] == Newly(tasks, ids, microtask)[i] && ids[l] == Newly(tasks, ids, microtask)[j]
  {
    var rest := Newly(tasks, ids[1..], microtask);
    var shift := if ids[0] in tasks && !tasks[ids[0]].queued && tasks[ids[0]].microtask == microtask then 1 else 0;
    assert Newly(tasks, ids, microtask) == if shift == 1 then [ids[0]] + rest else rest;
    hide Newly;
    if i < shift {
      k := 0;
      l := NewlyPlace(tasks, ids[1..], microtask, j - 1);
      l := l + 1;
    } else {
      k, l := NewlyPlaces(tasks, ids[1..], microtask, i - shift, j - shift);
      k, l := k + 1, l + 1;
    }
  }

  lemma {:induction false} NewlyPlace<H, V>(
    tasks: map<TaskId, Task<H, V>>, ids: seq<TaskId>, microtask: bool, i: nat) returns (k: nat)
    requires i < |Newly(tasks, ids, microtask)|
    ensures k < |ids| && ids[k] == Newly(tasks, ids, microtask)[i]
  {
    var id := Newly(tasks, ids, microtask)[i];
    NewlyIs(tasks, ids, microtask, id);
    k :| 0 <= k < |ids| && ids[k] == id;
  }

  lemma NewlyDistinct<H, V>(tasks: map<TaskId, Task<H, V>>, ids: seq<TaskId>, microtask: bool)
    requires Distinct(ids)
    ensures Distinct(Newly(tasks, ids, microtask))
  {
    var newly := Newly(tasks, ids, microtask);
    forall i, j | 0 <= i < j < |newly|
      ensures newly[i] != newly[j]
    {
      var k, l := NewlyPlaces(tasks, ids, microtask, i, j);
    }
  }

  lemma FiringDistinct<H, V>(s: State<H, V>, now: int)
    requires Sorted(s.timers)
    ensures Distinct(FiringOrder(s, now))
  {
    hide FiringOrder;
    var order := FiringOrder(s, now);
    forall i, j | 0 <= i < j < |order|
      ensures order[i] != order[j]
    {
      ExpiryIsExact(s, now, order[i]);
      if order[i] == order[j] {
        Twice(order, i, j);
      }
    }
  }

  lemma Twice<T>(s: seq<T>, i: nat, j: nat)
    requires i < j < |s| && s[i] == s[j]
    ensures multiset(s)[s[i]] >= 2
  {
    assert s == s[..j] + [s[j]] + s[j + 1..];
    assert s[i] in s[..j];
  }

  lemma JoinedIs<H, V>(s: State<H, V>, keys: seq<TaskId>, mid: State<H, V>, now: int, microtask: bool)
    requires TasksWoken(s, Waited(s.waiters, keys), mid) && LiveKept(s.timers, mid)
    ensures Joined(s, keys, now, microtask, Newly(s.tasks, Waited(s.waiters, keys), microtask),
                   Newly(mid.tasks, FiringOrder(mid, now), microtask))
  {
    hide FiringOrder, Newly, Waited, Due, FirstEntry, TasksWoken, LiveKept, MetBefore;
    var woken, order := Waited(s.waiters, keys), FiringOrder(mid, now);
    var early, late := Newly(s.tasks, woken, microtask), Newly(mid.tasks, order, microtask);
    forall id
      ensures id in early <==> id in keys && id in s.waiters && Unqueued(s, id, microtask)
    {
      NewlyIs(s.tasks, woken, microtask, id);
      WaitedIs(s.waiters, keys, id);
    }
    forall id
      ensures id in late <==> Due(s, now, id) && Unqueued(s, id, microtask) && id !in early
    {
      LateIs(s, woken, mid, now, microtask, id);
    }
    EarlyInOrder(s, keys, microtask);
    forall i, j, a, b | 0 <= i < j < |late| && FirstEntry(s, late[i], a) && FirstEntry(s, late[j], b)
      ensures a.deadline <= b.deadline
    {
      LateInOrder(s, woken, mid, now, microtask, i, j, a, b);
    }
    WaitedDistinct(s.waiters, keys);
    NewlyDistinct(s.tasks, woken, microtask);
    WokenSorted(s.timers, mid);
    FiringDistinct(mid, now);
    NewlyDistinct(mid.tasks, order, microtask);
    DistinctJoins(early, late);
  }

  lemma WokenSorted<H, V>(timers: seq<Timer>, r: State<H, V>)
    requires LiveKept(timers, r)
    ensures Sorted(r.timers)
  {
  }

  lemma DistinctJoins<T>(a: seq<T>, b: seq<T>)
    requires Distinct(a) && Distinct(b) && forall x :: x in b ==> x !in a
    ensures Distinct(a + b)
  {
    forall i, j | 0 <= i < j < |a + b|
      ensures (a + b)[i] != (a + b)[j]
    {
      if i < |a| <= j {
        assert (a + b)[i] in a && (a + b)[j] in b;
      }
    }
  }

  lemma LateIs<H, V>(s: State<H, V>, woken: seq<TaskId>, mid: State<H, V>, now: int, microtask: bool, id: TaskId)
    requires TasksWoken(s, woken, mid) && LiveKept(s.timers, mid)
    ensures id in Newly(mid.tasks, FiringOrder(mid, now), microtask) <==>
            Due(s, now, id) && Unqueued(s, id, microtask) && id !in Newly(s.tasks, woken, microtask)
  {
    hide FiringOrder, Newly, Due;
    NewlyIs(mid.tasks, FiringOrder(mid, now), microtask, id);
    NewlyIs(s.tasks, woken, microtask, id);
    ExpiryIsExact(mid, now, id);
    if id in s.tasks {
      DueAfterKeys(s, woken, mid, now, id);
    }
  }

  lemma EarlyInOrder<H, V>(s: State<H, V>, keys: seq<TaskId>, microtask: bool)
    ensures var early := Newly(s.tasks, Waited(s.waiters, keys), microtask);
            forall i, j :: 0 <= i < j < |early| ==> MetBefore(keys, early[i], early[j])
  {
    hide Newly, Waited, MetBefore;
    var woken := Waited(s.waiters, keys);
    var early := Newly(s.tasks, woken, microtask);
    forall i, j | 0 <= i < j < |early|
      ensures MetBefore(keys, early[i], early[j])
    {
      var k, l := NewlyPlaces(s.tasks, woken, microtask, i, j);
      WaitedInOrder(s.waiters, keys, k, l);
    }
  }

  lemma LateInOrder<H, V>(
    s: State<H, V>, woken: seq<TaskId>, mid: State<H, V>, now: int, microtask: bool,
    i: nat, j: nat, a: Timer, b: Timer)
    requires TasksWoken(s, woken, mid) && LiveKept(s.timers, mid)
    requires i < j < |Newly(mid.tasks, FiringOrder(mid, now), microtask)|
    requires FirstEntry(s, Newly(mid.tasks, FiringOrder(mid, now), microtask)[i], a)
    requires FirstEntry(s, Newly(mid.tasks, FiringOrder(mid, now), microtask)[j], b)
    ensures a.deadline <= b.deadline
  {
    hide FiringOrder, Newly, Due, FirstEntry;
    var order := FiringOrder(mid, now);
    var late := Newly(mid.tasks, order, microtask);
    LateNotWoken(s, woken, mid, now, microtask, late[i]);
    LateNotWoken(s, woken, mid, now, microtask, late[j]);
    FirstAfterKeys(s, woken, mid, late[i], a);
    FirstAfterKeys(s, woken, mid, late[j], b);
    var k, l := NewlyPlaces(mid.tasks, order, microtask, i, j);
    FiresByDeadline(mid, now, k, l, a, b);
  }

  lemma LateNotWoken<H, V>(
    s: State<H, V>, woken: seq<TaskId>, mid: State<H, V>, now: int, microtask: bool, id: TaskId)
    requires TasksWoken(s, woken, mid) && id in Newly(mid.tasks, FiringOrder(mid, now), microtask)
    ensures id !in woken
  {
    hide FiringOrder, Newly;
    NewlyIs(mid.tasks, FiringOrder(mid, now), microtask, id);
  }

  // ----- The whole poll -----

  lemma KeysThenTimers<H, V>(s: State<H, V>, keys: seq<TaskId>, now: int)
    requires Sorted(s.timers)
    ensures Polled(s, keys, now, WakeExpired(WakeKeys(s, keys), now))
  {
    hide WakeExpired, WakeKeys, Waited, PolledTask, TasksWoken, LiveKept, QueuesWoken, Joined;
    var mid, woken := WakeKeys(s, keys), Waited(s.waiters, keys);
    var r := WakeExpired(mid, now);
    KeysAre(s, keys);
    WokenSorted(s.timers, mid);
    ExpiryKeepsRest(mid, now);
    forall id
      ensures id in woken <==> id in keys && id in s.waiters
    {
      WaitedIs(s.waiters, keys, id);
    }
    SameTasks(s, keys, mid, now);
    forall id | id in s.tasks
      ensures id in r.tasks && r.tasks[id] == PolledTask(s, keys, now, id)
    {
      TasksPolled(s, keys, mid, now, id);
    }
    QueuePolled(s, keys, mid, now, false);
    QueuePolled(s, keys, mid, now, true);
  }

  lemma SameTasks<H, V>(s: State<H, V>, keys: seq<TaskId>, mid: State<H, V>, now: int)
    requires TasksWoken(s, Waited(s.waiters, keys), mid) && Sorted(mid.timers)
    ensures WakeExpired(mid, now).tasks.Keys == s.tasks.Keys
  {
    hide WakeExpired, FiringOrder, Due;
    forall id
      ensures id in WakeExpired(mid, now).tasks <==> id in s.tasks
    {
      ExpiryIsExact(mid, now, id);
    }
  }

  lemma QueuePolled<H, V>(s: State<H, V>, keys: seq<TaskId>, mid: State<H, V>, now: int, microtask: bool)
    requires KeysWoken(s, Waited(s.waiters, keys), mid)
    ensures QueueJoined(s, keys, now, microtask, WakeExpired(mid, now))
  {
    hide WakeExpired, FiringOrder, Joined, Waited, Newly, LiveKept, TasksWoken;
    WokenSorted(s.timers, mid);
    ExpiryQueues(mid, now, microtask);
    JoinedIs(s, keys, mid, now, microtask);
  }

  /** Dropping stale entries from the head changes nothing a poll promises. */
  lemma PrunedPolls<H, V>(s: State<H, V>, keys: seq<TaskId>, now: int, r: State<H, V>)
    requires Sorted(s.timers) && Polled(PruneHead(s), keys, now, r)
    ensures Polled(s, keys, now, r)
  {
    hide Polled, LiveKept, Sorted, LiveOnly;
    PruneOnlyTimers(s);
    PruneKeepsLive(s);
    SameEntriesPoll(s, PruneHead(s), keys, now, r);
  }

  lemma SameEntriesPoll<H, V>(s: State<H, V>, p: State<H, V>, keys: seq<TaskId>, now: int, r: State<H, V>)
    requires p == s.(timers := p.timers, staleTimers := p.staleTimers) && LiveKept(s.timers, p)
    requires Polled(p, keys, now, r)
    ensures Polled(s, keys, now, r)
  {
    hide Live, PolledTask, QueueJoined, LiveKept, Due;
    forall id
      ensures Due(p, now, id) <==> Due(s, now, id)
    {
      SameDue(s, p, now, id);
    }
    PrunedTasks(s, p, keys, now);
    PrunedQueue(s, p, keys, now, false, r);
    PrunedQueue(s, p, keys, now, true, r);
  }

  lemma {:induction false} PruneKeepsLive<H, V>(s: State<H, V>)
    requires Sorted(s.timers)
    ensures LiveKept(s.timers, PruneHead(s))
    decreases |s.timers|
  {
    if s.timers != [] && !Live(s.tasks, s.timers[0]) {
      assert s.timers == [s.timers[0]] + s.timers[1..];
      PruneKeepsLive(PopStale(s));
      PruneOnlyTimers(s);
    }
  }

  lemma SameDue<H, V>(s: State<H, V>, p: State<H, V>, now: int, id: TaskId)
    requires p.tasks == s.tasks && LiveKept(s.timers, p)
    ensures Due(p, now, id) <==> Due(s, now, id)
  {
    hide Live;
  }

  lemma PrunedTasks<H, V>(s: State<H, V>, p: State<H, V>, keys: seq<TaskId>, now: int)
    requires p.tasks == s.tasks && p.waiters == s.waiters && p.idle == s.idle
    requires forall id :: Due(p, now, id) <==> Due(s, now, id)
    ensures forall id :: id in s.tasks ==> PolledTask(p, keys, now, id) == PolledTask(s, keys, now, id)
  {
    hide Due;
  }

  lemma PrunedQueue<H, V>(
    s: State<H, V>, p: State<H, V>, keys: seq<TaskId>, now: int, microtask: bool, r: State<H, V>)
    requires p == s.(timers := p.timers, staleTimers := p.staleTimers) && LiveKept(s.timers, p)
    requires forall id :: Due(p, now, id) <==> Due(s, now, id)
    requires QueueJoined(p, keys, now, microtask, r)
    ensures QueueJoined(s, keys, now, microtask, r)
  {
    hide Joined, LiveKept, Due;
    var early, late :|
      Joined(p, keys, now, microtask, early, late) && QueueOf(r, microtask) == QueueOf(p, microtask) + early + late;
    PrunedJoined(s, p, keys, now, microtask, early, late);
  }

  lemma PrunedJoined<H, V>(
    s: State<H, V>, p: State<H, V>, keys: seq<TaskId>, now: int, microtask: bool,
    early: seq<TaskId>, late: seq<TaskId>)
    requires p.tasks == s.tasks && p.waiters == s.waiters && LiveKept(s.timers, p)
    requires forall id :: Due(p, now, id) <==> Due(s, now, id)
    requires Joined(p, keys, now, microtask, early, late)
    ensures Joined(s, keys, now, microtask, early, late)
  {
    hide Due, MetBefore, FirstEntry, LiveKept;
    forall i, j, a, b | 0 <= i < j < |late| && FirstEntry(s, late[i], a) && FirstEntry(s, late[j], b)
      ensures a.deadline <= b.deadline
    {
      SameFirst(s, p, late[i], a);
      SameFirst(s, p, late[j], b);
    }
  }

  lemma SameFirst<H, V>(s: State<H, V>, p: State<H, V>, id: TaskId, t: Timer)
    requires p.tasks == s.tasks && LiveKept(s.timers, p) && FirstEntry(s, id, t)
    ensures FirstEntry(p, id, t)
  {
    hide Live;
  }

  /** A poll with ready keys wakes exactly who waited on them and whose timers
      are due, in order. */
  lemma PollIsExact<H, V>(s: State<H, V>, keys: seq<TaskId>, now: int)
    requires Inv(s)
    ensures Polled(s, keys, now, Poll(s, Some(keys), now))
  {
    hide PruneHead, WakeKeys, WakeExpired, Polled;
    PruneKeeps(s);
    PruneSorted(s);
    KeysThenTimers(PruneHead(s), keys, now);
    PrunedPolls(s, keys, now, Poll(s, Some(keys), now));
  }

  lemma PruneSorted<H, V>(s: State<H, V>)
    requires Inv(s)
    ensures Sorted(s.timers) && Sorted(PruneHead(s).timers)
  {
    PruneKeepsLive(s);
  }

  /** One that does not block does the same, and looks at timers alone when
      nothing waits. */
  lemma NonblockingIsExact<H, V>(s: State<H, V>, readiness: Option<seq<TaskId>>, now: int)
    requires Inv(s)
    ensures s.waiters == map[] ==> Polled(s, [], now, PollNonblocking(s, readiness, now))
    ensures s.waiters != map[] && readiness.Some? ==>
              Polled(s, readiness.value, now, PollNonblocking(s, readiness, now))
    ensures s.waiters != map[] && readiness.None? ==> PollNonblocking(s, readiness, now) == s
  {
    hide WakeExpired, Polled, PruneHead;
    PruneSorted(s);
    if s.waiters == map[] {
      KeysThenTimers(s, [], now);
    } else if readiness.Some? {
      KeysThenTimers(s, readiness.value, now);
    }
  }

  /** When waiting fails a blocking poll changes no task and no queue. */
  lemma FailedPollIsQuiet<H, V>(s: State<H, V>, now: int)
    ensures var r := Poll(s, None, now);
            r == s.(timers := r.timers, staleTimers := r.staleTimers)
  {
    PruneOnlyTimers(s);
  }
}
