/** What holds in every reachable state of the event loop. */
module EventLoopInvariants {
  import opened Sequences
  import opened Wrappers
  import opened EventLoop

  // ----- The invariant -----

  /** A live task is queued exactly when it is in the queue its kind selects,
      it was asked to run, and then it has an activation pending. */
  predicate WellQueued<H, V>(task: Task<H, V>, inReady: bool, inMicrotasks: bool) {
    && task.queued == task.readyRequested
    && (task.queued ==> task.pending.Some?)
    && (if task.microtask then !inReady && (task.queued <==> inMicrotasks)
        else !inMicrotasks && (task.queued <==> inReady))
  }

  ghost predicate QueueInv<H, V>(s: State<H, V>) {
    && Distinct(s.ready)
    && Distinct(s.microtasks)
    && (forall id :: id in s.ready ==> id < s.nextId)
    && (forall id :: id in s.microtasks ==> id < s.nextId)
    && (forall id :: id in s.tasks ==> id < s.nextId)
    && (forall id :: id in s.tasks ==> WellQueued(s.tasks[id], id in s.ready, id in s.microtasks))
  }

  ghost function Referenced<H, V>(tasks: map<TaskId, Task<H, V>>): set<TaskId> {
    set id | id in tasks && tasks[id].referenced
  }

  ghost function Armed<H, V>(tasks: map<TaskId, Task<H, V>>): set<TaskId> {
    set id | id in tasks && tasks[id].timerGeneration.Some?
  }

  ghost predicate Sorted(timers: seq<Timer>) {
    forall i, j :: 0 <= i < j < |timers| ==> AtMost(timers[i], timers[j])
  }

  ghost predicate HasEntry(timers: seq<Timer>, id: TaskId, generation: nat) {
    exists t :: t in timers && t.id == id && t.generation == generation
  }

  /** A set timer carries the current generation and has an entry in the heap. */
  ghost predicate WellArmed<H, V>(task: Task<H, V>, id: TaskId, timers: seq<Timer>) {
    task.timerGeneration.Some? ==>
      task.timerGeneration.value == task.generation && HasEntry(timers, id, task.generation)
  }

  /** Entries never come from the future of their task. */
  ghost predicate Known<H, V>(s: State<H, V>, t: Timer) {
    t.id < s.nextId && (t.id in s.tasks ==> t.generation <= s.tasks[t.id].generation)
  }

  ghost predicate TimerShape<H, V>(s: State<H, V>) {
    && Sorted(s.timers)
    && (forall t :: t in s.timers ==> Known(s, t))
    && (forall id :: id in s.tasks ==> WellArmed(s.tasks[id], id, s.timers))
  }

  ghost predicate TimerInv<H, V>(s: State<H, V>) {
    && TimerShape(s)
    && s.liveTimers == |Armed(s.tasks)|
    && s.staleTimers >= 0
    && s.liveTimers + s.staleTimers <= |s.timers|
  }

  ghost predicate Inv<H, V>(s: State<H, V>) {
    && QueueInv(s)
    && TimerInv(s)
    && s.referencedTasks == |Referenced(s.tasks)|
  }

  // ----- The heap -----

  lemma {:induction false} PushKeeps(timers: seq<Timer>, t: Timer)
    requires Sorted(timers)
    ensures Sorted(Push(timers, t))
    ensures forall x :: x in Push(timers, t) <==> x == t || x in timers
  {
    if timers != [] && !AtMost(t, timers[0]) {
      PushKeeps(timers[1..], t);
      var rest := Push(timers[1..], t);
      assert timers == [timers[0]] + timers[1..];
      forall j | 0 <= j < |rest|
        ensures AtMost(timers[0], rest[j])
      {
        assert rest[j] in rest;
      }
    } else if timers != [] {
      assert forall j :: 0 <= j < |timers| ==> AtMost(t, timers[j]);
    }
  }

  lemma {:induction false} LiveOnlyKeeps<H, V>(tasks: map<TaskId, Task<H, V>>, timers: seq<Timer>)
    requires Sorted(timers)
    ensures Sorted(LiveOnly(tasks, timers))
    ensures forall x :: x in LiveOnly(tasks, timers) <==> x in timers && Live(tasks, x)
  {
    if timers != [] {
      LiveOnlyKeeps(tasks, timers[1..]);
      assert timers == [timers[0]] + timers[1..];
      var rest := LiveOnly(tasks, timers[1..]);
      forall j | 0 <= j < |rest|
        ensures AtMost(timers[0], rest[j])
      {
        assert rest[j] in rest;
      }
    }
  }

  ghost function Ids(timers: seq<Timer>): set<TaskId> {
    set t | t in timers :: t.id
  }

  lemma {:induction false} IdsAreFewer(timers: seq<Timer>)
    ensures |Ids(timers)| <= |timers|
    ensures (forall i, j :: 0 <= i < j < |timers| ==> timers[i].id != timers[j].id) ==> |Ids(timers)| == |timers|
  {
    if timers != [] {
      IdsAreFewer(timers[1..]);
      assert timers == [timers[0]] + timers[1..];
      assert Ids(timers) == {timers[0].id} + Ids(timers[1..]);
    }
  }

  /** The heap holds at least one live entry per set timer. */
  lemma ArmedAreLive<H, V>(s: State<H, V>)
    requires Sorted(s.timers) && forall id :: id in s.tasks ==> WellArmed(s.tasks[id], id, s.timers)
    ensures Armed(s.tasks) == Ids(LiveOnly(s.tasks, s.timers))
    ensures |Armed(s.tasks)| <= |LiveOnly(s.tasks, s.timers)|
  {
    var live := LiveOnly(s.tasks, s.timers);
    LiveOnlyKeeps(s.tasks, s.timers);
    forall id | id in Armed(s.tasks)
      ensures id in Ids(live)
    {
      var t :| t in s.timers && t.id == id && t.generation == s.tasks[id].generation;
      assert t in live;
    }
    IdsAreFewer(live);
  }

  lemma {:induction false} SomeNotLive<H, V>(tasks: map<TaskId, Task<H, V>>, timers: seq<Timer>, t: Timer)
    requires t in timers && !Live(tasks, t)
    ensures |LiveOnly(tasks, timers)| < |timers|
  {
    if t != timers[0] {
      assert t in timers[1..];
      SomeNotLive(tasks, timers[1..], t);
    }
  }

  lemma CompactKeeps<H, V>(s: State<H, V>)
    requires TimerInv(s)
    ensures TimerInv(CompactTimers(s))
  {
    LiveOnlyKeeps(s.tasks, s.timers);
    ArmedAreLive(s);
    var r := CompactTimers(s);
    forall id | id in s.tasks
      ensures WellArmed(s.tasks[id], id, r.timers)
    {
      if s.tasks[id].timerGeneration.Some? {
        var t :| t in s.timers && t.id == id && t.generation == s.tasks[id].generation;
        assert Live(s.tasks, t);
        assert t in r.timers;
      }
    }
    assert forall t :: t in r.timers ==> t in s.timers;
  }

  // ----- Changing one task -----

  lemma ReferencedUpdate<H, V>(tasks: map<TaskId, Task<H, V>>, id: TaskId, task: Task<H, V>)
    ensures Referenced(tasks[id := task]) ==
            if task.referenced then Referenced(tasks) + {id} else Referenced(tasks) - {id}
  {
  }

  lemma ArmedUpdate<H, V>(tasks: map<TaskId, Task<H, V>>, id: TaskId, task: Task<H, V>)
    ensures Armed(tasks[id := task]) ==
            if task.timerGeneration.Some? then Armed(tasks) + {id} else Armed(tasks) - {id}
  {
  }

  /** The timer invariant reads tasks only through their timer fields. */
  lemma ShapeTransfers<H, V>(s: State<H, V>, r: State<H, V>)
    requires TimerShape(s) && r.timers == s.timers && r.nextId >= s.nextId
    requires forall id :: id in r.tasks && id < s.nextId ==>
               id in s.tasks && r.tasks[id].generation >= s.tasks[id].generation
    requires forall id :: id in r.tasks && r.tasks[id].timerGeneration.Some? ==>
               id in s.tasks && r.tasks[id].timerGeneration == s.tasks[id].timerGeneration
               && r.tasks[id].generation == s.tasks[id].generation
    ensures TimerShape(r)
  {
    forall t | t in r.timers
      ensures Known(r, t)
    {
      assert Known(s, t);
    }
    forall id | id in r.tasks
      ensures WellArmed(r.tasks[id], id, r.timers)
    {
      if r.tasks[id].timerGeneration.Some? {
        assert WellArmed(s.tasks[id], id, s.timers);
      }
    }
  }

  /** A change that leaves the timer fields alone. */
  lemma TimersUntouched<H, V>(s: State<H, V>, id: TaskId, task: Task<H, V>)
    requires TimerInv(s) && id in s.tasks
    requires task.generation == s.tasks[id].generation && task.timerGeneration == s.tasks[id].timerGeneration
    ensures TimerInv(SetTask(s, id, task))
  {
    ShapeTransfers(s, SetTask(s, id, task));
    ArmedUpdate(s.tasks, id, task);
    assert Armed(s.tasks[id := task]) == Armed(s.tasks);
  }

  /** A change that leaves the queue fields alone. */
  lemma QueuesUntouched<H, V>(s: State<H, V>, id: TaskId, task: Task<H, V>)
    requires QueueInv(s) && id in s.tasks
    requires task.queued == s.tasks[id].queued && task.readyRequested == s.tasks[id].readyRequested
    requires task.microtask == s.tasks[id].microtask && (task.queued ==> task.pending.Some?)
    ensures QueueInv(SetTask(s, id, task))
  {
  }

  lemma ReferencesUntouched<H, V>(s: State<H, V>, id: TaskId, task: Task<H, V>)
    requires id in s.tasks && task.referenced == s.tasks[id].referenced
    ensures Referenced(SetTask(s, id, task).tasks) == Referenced(s.tasks)
  {
    ReferencedUpdate(s.tasks, id, task);
  }

  /** Moving one timer from live to stale, when the tasks already show it. */
  lemma InvalidateKeeps<H, V>(s: State<H, V>, armed: bool)
    requires TimerShape(s) && s.staleTimers >= 0 && s.liveTimers + s.staleTimers <= |s.timers|
    requires |Armed(s.tasks)| == if armed then s.liveTimers - 1 else s.liveTimers
    ensures TimerInv(Invalidate(s, armed))
  {
    if armed {
      var moved := s.(liveTimers := s.liveTimers - 1, staleTimers := s.staleTimers + 1);
      assert forall t :: Known(s, t) ==> Known(moved, t);
      CompactKeeps(moved);
    }
  }

  /** The next generation leaves its predecessors' timers behind. */
  lemma NextGeneration<H, V>(s: State<H, V>, id: TaskId, activation: Activation<V>)
    requires TimerInv(s) && id in s.tasks
    ensures var r := SetTask(s, id, Woken(s.tasks[id], activation));
            TimerInv(Invalidate(r, s.tasks[id].timerGeneration.Some?))
  {
    var task := Woken(s.tasks[id], activation);
    var r := SetTask(s, id, task);
    ArmedUpdate(s.tasks, id, task);
    ArmedLoses(s, id);
    ShapeTransfers(s, r);
    InvalidateKeeps(r, s.tasks[id].timerGeneration.Some?);
  }

  lemma ArmedLoses<H, V>(s: State<H, V>, id: TaskId)
    requires id in s.tasks
    ensures |Armed(s.tasks) - {id}| == |Armed(s.tasks)| - if s.tasks[id].timerGeneration.Some? then 1 else 0
  {
    if !s.tasks[id].timerGeneration.Some? {
      assert Armed(s.tasks) - {id} == Armed(s.tasks);
    }
  }

  lemma RemoveKeepsTimers<H, V>(s: State<H, V>, id: TaskId)
    requires TimerInv(s)
    ensures TimerInv(RemoveTask(s, id))
  {
    if id in s.tasks {
      var removed := s.(
        tasks := s.tasks - {id},
        referencedTasks := if s.tasks[id].referenced then s.referencedTasks - 1 else s.referencedTasks);
      assert Armed(removed.tasks) == Armed(s.tasks) - {id};
      ArmedLoses(s, id);
      ShapeTransfers(s, removed);
      RemovedIsValid(s, id, removed);
    }
  }

  lemma RemovedIsValid<H, V>(s: State<H, V>, id: TaskId, removed: State<H, V>)
    requires id in s.tasks && TimerShape(removed)
    requires removed == s.(
               tasks := s.tasks - {id},
               referencedTasks := if s.tasks[id].referenced then s.referencedTasks - 1 else s.referencedTasks)
    requires s.staleTimers >= 0 && s.liveTimers + s.staleTimers <= |s.timers|
    requires |Armed(removed.tasks)| == s.liveTimers - if s.tasks[id].timerGeneration.Some? then 1 else 0
    ensures TimerInv(RemoveTask(s, id))
  {
    hide TimerInv, Invalidate;
    InvalidateKeeps(removed, s.tasks[id].timerGeneration.Some?);
  }

  // ----- Each operation keeps the invariant -----

  lemma InsertKeeps<H, V>(s: State<H, V>, coroutine: H, arguments: seq<V>, microtask: bool)
    requires Inv(s)
    ensures Inv(InsertTask(s, coroutine, arguments, microtask))
  {
    InsertKeepsTimers(s, coroutine, arguments, microtask);
    InsertKeepsQueues(s, coroutine, arguments, microtask);
    var r := InsertTask(s, coroutine, arguments, microtask);
    ReferencedUpdate(s.tasks, s.nextId, r.tasks[s.nextId]);
    assert s.nextId !in Referenced(s.tasks);
  }

  lemma InsertKeepsTimers<H, V>(s: State<H, V>, coroutine: H, arguments: seq<V>, microtask: bool)
    requires TimerInv(s) && s.nextId !in s.tasks
    ensures TimerInv(InsertTask(s, coroutine, arguments, microtask))
  {
    var r := InsertTask(s, coroutine, arguments, microtask);
    ShapeTransfers(s, r);
    ArmedUpdate(s.tasks, s.nextId, r.tasks[s.nextId]);
    assert Armed(r.tasks) == Armed(s.tasks);
  }

  lemma InsertKeepsQueues<H, V>(s: State<H, V>, coroutine: H, arguments: seq<V>, microtask: bool)
    requires QueueInv(s)
    ensures QueueInv(InsertTask(s, coroutine, arguments, microtask))
  {
    var r := InsertTask(s, coroutine, arguments, microtask);
    forall x | x in r.tasks
      ensures WellQueued(r.tasks[x], x in r.ready, x in r.microtasks)
    {
      if x != s.nextId {
        assert WellQueued(s.tasks[x], x in s.ready, x in s.microtasks);
      }
    }
  }

  lemma MarkKeeps<H, V>(s: State<H, V>, id: TaskId, front: bool)
    requires Inv(s) && (id in s.tasks ==> s.tasks[id].pending.Some?)
    ensures Inv(MarkQueued(s, id, front))
  {
    if id in s.tasks {
      var task := s.tasks[id].(readyRequested := true, queued := true);
      TimersUntouched(s, id, task);
      ReferencesUntouched(s, id, task);
      MarkKeepsQueues(s, id, front);
      var r, m := MarkQueued(s, id, front), SetTask(s, id, task);
      assert forall t :: Known(m, t) ==> Known(r, t);
    }
  }

  lemma MarkKeepsQueues<H, V>(s: State<H, V>, id: TaskId, front: bool)
    requires QueueInv(s) && id in s.tasks && s.tasks[id].pending.Some?
    ensures QueueInv(MarkQueued(s, id, front))
  {
    assert WellQueued(s.tasks[id], id in s.ready, id in s.microtasks);
    var r := MarkQueued(s, id, front);
    forall x | x in r.tasks
      ensures WellQueued(r.tasks[x], x in r.ready, x in r.microtasks)
    {
      assert WellQueued(s.tasks[x], x in s.ready, x in s.microtasks);
    }
  }

  lemma ArmKeeps<H, V>(s: State<H, V>, id: TaskId, deadline: int)
    requires Inv(s)
    ensures Inv(ArmTimer(s, id, deadline))
  {
    if id in s.tasks {
      var task := s.tasks[id].(timerGeneration := Some(s.tasks[id].generation));
      QueuesUntouched(s, id, task);
      ReferencesUntouched(s, id, task);
      ArmKeepsTimers(s, id, deadline);
    }
  }

  lemma ArmKeepsTimers<H, V>(s: State<H, V>, id: TaskId, deadline: int)
    requires TimerInv(s) && id in s.tasks && id < s.nextId
    ensures TimerInv(ArmTimer(s, id, deadline))
  {
    hide TimerShape, Push, CompactTimers, Armed;
    var old_ := s.tasks[id];
    var task := old_.(timerGeneration := Some(old_.generation));
    var timer := Timer(deadline, id, old_.generation);
    var rearmed := old_.timerGeneration.Some?;
    var pushed := SetTask(s, id, task).(
      timers := Push(s.timers, timer),
      liveTimers := if rearmed then s.liveTimers else s.liveTimers + 1,
      staleTimers := if rearmed then s.staleTimers + 1 else s.staleTimers);
    ArmedUpdate(s.tasks, id, task);
    ArmedGains(s, id);
    PushKeepsShape(s, id, task, timer, pushed);
    assert TimerInv(pushed);
    CompactKeeps(pushed);
    assert ArmTimer(s, id, deadline) == CompactTimers(pushed);
  }

  lemma ArmedGains<H, V>(s: State<H, V>, id: TaskId)
    requires id in s.tasks
    ensures |Armed(s.tasks) + {id}| == |Armed(s.tasks)| + if s.tasks[id].timerGeneration.Some? then 0 else 1
  {
    if s.tasks[id].timerGeneration.Some? {
      assert Armed(s.tasks) + {id} == Armed(s.tasks);
    }
  }

  lemma PushKeepsShape<H, V>(s: State<H, V>, id: TaskId, task: Task<H, V>, timer: Timer, pushed: State<H, V>)
    requires TimerShape(s) && id in s.tasks && id < s.nextId
    requires timer.id == id && timer.generation == s.tasks[id].generation
    requires task.generation == timer.generation && task.timerGeneration == Some(timer.generation)
    requires pushed.tasks == s.tasks[id := task] && pushed.nextId == s.nextId
    requires pushed.timers == Push(s.timers, timer)
    ensures TimerShape(pushed)
  {
    PushKeeps(s.timers, timer);
    forall t | t in pushed.timers
      ensures Known(pushed, t)
    {
      if t != timer {
        assert Known(s, t);
      }
    }
    forall x | x in pushed.tasks
      ensures WellArmed(pushed.tasks[x], x, pushed.timers)
    {
      if x == id {
        assert timer in pushed.timers;
      } else if s.tasks[x].timerGeneration.Some? {
        assert WellArmed(s.tasks[x], x, s.timers);
        var t :| t in s.timers && t.id == x && t.generation == s.tasks[x].generation;
        assert t in pushed.timers;
      }
    }
  }

  /** The invariant reads only tasks, queues, timers and their counters. */
  lemma SameCoreKeeps<H, V>(s: State<H, V>, r: State<H, V>)
    requires Inv(s)
    requires r == s.(waiters := r.waiters, registrations := r.registrations, current := r.current)
    ensures Inv(r)
  {
    assert forall t :: Known(s, t) ==> Known(r, t);
  }

  lemma ReferenceKeeps<H, V>(s: State<H, V>, id: TaskId, on: bool)
    requires Inv(s)
    ensures Inv(if on then Reference(s, id) else Unreference(s, id))
  {
    if id in s.tasks && s.tasks[id].referenced != on {
      var task := s.tasks[id].(referenced := on);
      var m := SetTask(s, id, task);
      QueuesUntouched(s, id, task);
      TimersUntouched(s, id, task);
      ReferencedChanges(s.tasks, id, on);
      RefCountKeeps(m, if on then s.referencedTasks + 1 else s.referencedTasks - 1);
    }
  }

  lemma RefCountKeeps<H, V>(s: State<H, V>, n: int)
    requires QueueInv(s) && TimerInv(s) && n == |Referenced(s.tasks)|
    ensures Inv(s.(referencedTasks := n))
  {
    var r := s.(referencedTasks := n);
    assert forall t :: Known(s, t) ==> Known(r, t);
  }

  lemma ReferencedChanges<H, V>(tasks: map<TaskId, Task<H, V>>, id: TaskId, on: bool)
    requires id in tasks && tasks[id].referenced != on
    ensures |Referenced(tasks[id := tasks[id].(referenced := on)])| == |Referenced(tasks)| + if on then 1 else -1
  {
    ReferencedUpdate(tasks, id, tasks[id].(referenced := on));
    assert id in Referenced(tasks) <==> !on;
  }

  lemma RemoveKeeps<H, V>(s: State<H, V>, id: TaskId)
    requires Inv(s)
    ensures Inv(RemoveTask(s, id))
  {
    RemoveKeepsTimers(s, id);
    if id in s.tasks {
      ReferencedLoses(s.tasks, id);
      RemoveKeepsQueues(s, id);
    }
  }

  lemma RemoveKeepsQueues<H, V>(s: State<H, V>, id: TaskId)
    requires QueueInv(s) && id in s.tasks
    ensures QueueInv(RemoveTask(s, id))
  {
    var r := RemoveTask(s, id);
    forall x | x in r.tasks
      ensures WellQueued(r.tasks[x], x in r.ready, x in r.microtasks)
    {
      assert WellQueued(s.tasks[x], x in s.ready, x in s.microtasks);
    }
  }

  lemma ReferencedLoses<H, V>(tasks: map<TaskId, Task<H, V>>, id: TaskId)
    requires id in tasks
    ensures |Referenced(tasks - {id})| == |Referenced(tasks)| - if tasks[id].referenced then 1 else 0
  {
    assert Referenced(tasks - {id}) == Referenced(tasks) - {id};
    if !tasks[id].referenced {
      assert Referenced(tasks) - {id} == Referenced(tasks);
    }
  }

  lemma DisarmKeeps<H, V>(s: State<H, V>, id: TaskId)
    requires Inv(s)
    ensures Inv(Disarm(s, id))
  {
    SameCoreKeeps(s, Disarm(s, id));
  }

  /** A wake of a task that is not queued, before it is queued again. */
  lemma WakeKeeps<H, V>(s: State<H, V>, id: TaskId, activation: Activation<V>)
    requires Inv(s) && id in s.tasks
    ensures var r := SetTask(s, id, Woken(s.tasks[id], activation));
            Inv(Invalidate(r, s.tasks[id].timerGeneration.Some?))
  {
    NextGeneration(s, id, activation);
    QueuesUntouched(s, id, Woken(s.tasks[id], activation));
    ReferencesUntouched(s, id, Woken(s.tasks[id], activation));
  }

  lemma EnqueueKeeps<H, V>(s: State<H, V>, id: TaskId, activation: Activation<V>, front: bool)
    requires Inv(s)
    ensures Inv(Enqueue(s, id, activation, front))
  {
    if id in s.tasks && !s.tasks[id].queued && !s.tasks[id].readyRequested {
      DisarmKeeps(s, id);
      var d := Disarm(s, id);
      WakeKeeps(d, id, activation);
      var woken := SetTask(d, id, Woken(s.tasks[id], activation));
      assert woken == Disarm(SetTask(s, id, Woken(s.tasks[id], activation)), id);
      MarkKeeps(Invalidate(woken, s.tasks[id].timerGeneration.Some?), id, front);
    }
  }

  lemma FireKeeps<H, V>(s: State<H, V>, id: TaskId)
    requires Inv(s)
    ensures Inv(Fire(s, id))
  {
    if id in s.tasks && s.tasks[id].pending.None? {
      WakeKeeps(s, id, Resume(s.idle));
      var woken := SetTask(s, id, Woken(s.tasks[id], Resume(s.idle)));
      MarkKeeps(Invalidate(woken, s.tasks[id].timerGeneration.Some?), id, false);
    } else {
      MarkKeeps(s, id, false);
    }
  }

  lemma {:induction false} WakeKeysKeep<H, V>(s: State<H, V>, keys: seq<TaskId>)
    requires Inv(s)
    ensures Inv(WakeKeys(s, keys))
    decreases |keys|
  {
    if keys != [] {
      if keys[0] in s.waiters {
        DisarmKeeps(s, keys[0]);
        FireKeeps(Disarm(s, keys[0]), keys[0]);
      }
      WakeKeysKeep(WakeKey(s, keys[0]), keys[1..]);
    }
  }

  // ----- Taking timers off the heap -----

  /** Without its first entry, and with that entry's task disarmed if live. */
  lemma PopKeepsShape<H, V>(s: State<H, V>, r: State<H, V>)
    requires TimerShape(s) && s.timers != [] && r.timers == s.timers[1..] && r.nextId == s.nextId
    requires var t := s.timers[0];
             r.tasks == if Live(s.tasks, t) then s.tasks[t.id := s.tasks[t.id].(timerGeneration := None)] else s.tasks
    ensures TimerShape(r)
  {
    var head := s.timers[0];
    assert s.timers == [head] + s.timers[1..];
    forall t | t in r.timers
      ensures Known(r, t)
    {
      assert Known(s, t);
    }
    forall id | id in r.tasks
      ensures WellArmed(r.tasks[id], id, r.timers)
    {
      assert WellArmed(s.tasks[id], id, s.timers);
      if r.tasks[id].timerGeneration.Some? {
        var t :| t in s.timers && t.id == id && t.generation == s.tasks[id].generation;
        assert t != head;
      }
    }
  }

  lemma PopLiveKeeps<H, V>(s: State<H, V>)
    requires Inv(s) && s.timers != [] && Live(s.tasks, s.timers[0])
    ensures Inv(PopLive(s))
  {
    var id := s.timers[0].id;
    var task := s.tasks[id].(timerGeneration := None);
    PopKeepsShape(s, PopLive(s));
    ArmedUpdate(s.tasks, id, task);
    ArmedLoses(s, id);
    QueuesUntouched(s, id, task);
    ReferencesUntouched(s, id, task);
  }

  lemma PopStaleKeeps<H, V>(s: State<H, V>)
    requires Inv(s) && s.timers != [] && !Live(s.tasks, s.timers[0])
    ensures Inv(PopStale(s))
  {
    PopKeepsShape(s, PopStale(s));
    ArmedAreLive(s);
    SomeNotLive(s.tasks, s.timers, s.timers[0]);
  }

  lemma PopExpiredKeeps<H, V>(s: State<H, V>)
    requires Inv(s) && s.timers != []
    ensures Inv(PopExpired(s))
  {
    hide Inv, Fire, PopStale, PopLive;
    if Live(s.tasks, s.timers[0]) {
      PopLiveKeeps(s);
      FireKeeps(PopLive(s), s.timers[0].id);
    } else {
      PopStaleKeeps(s);
    }
  }

  lemma {:induction false} WakeExpiredKeeps<H, V>(s: State<H, V>, now: int)
    requires Inv(s)
    ensures Inv(WakeExpired(s, now))
    decreases |s.timers|
  {
    if s.timers != [] && s.timers[0].deadline <= now {
      PopExpiredKeeps(s);
      WakeExpiredKeeps(PopExpired(s), now);
    }
  }

  lemma {:induction false} PruneKeeps<H, V>(s: State<H, V>)
    requires Inv(s)
    ensures Inv(PruneHead(s))
    decreases |s.timers|
  {
    if s.timers != [] && !Live(s.tasks, s.timers[0]) {
      PopStaleKeeps(s);
      PruneKeeps(PopStale(s));
    }
  }

  lemma HandleKeeps<H, V>(s: State<H, V>, readiness: Option<seq<TaskId>>, now: int)
    requires Inv(s)
    ensures Inv(HandleReadiness(s, readiness, now))
  {
    if readiness.Some? {
      WakeKeysKeep(s, readiness.value);
      WakeExpiredKeeps(WakeKeys(s, readiness.value), now);
    }
  }

  // ----- Taking activations off the queues -----

  /** The queue without its dead entries. */
  function LiveIds<H, V>(tasks: map<TaskId, Task<H, V>>, queue: seq<TaskId>): seq<TaskId> {
    if queue == [] then []
    else if queue[0] in tasks then [queue[0]] + LiveIds(tasks, queue[1..])
    else LiveIds(tasks, queue[1..])
  }

  lemma TailFacts(q: seq<TaskId>)
    requires Distinct(q) && q != []
    ensures Distinct(q[1..]) && forall x :: x in q[1..] <==> x in q && x != q[0]
  {
    assert q == [q[0]] + q[1..];
  }

  lemma PopDeadKeeps<H, V>(s: State<H, V>, microtask: bool)
    requires Inv(s) && QueueOf(s, microtask) != [] && QueueOf(s, microtask)[0] !in s.tasks
    ensures Inv(PopQueue(s, microtask))
  {
    var r := PopQueue(s, microtask);
    TailFacts(QueueOf(s, microtask));
    assert forall t :: Known(s, t) ==> Known(r, t);
    forall id | id in r.tasks
      ensures WellQueued(r.tasks[id], id in r.ready, id in r.microtasks)
    {
      assert WellQueued(s.tasks[id], id in s.ready, id in s.microtasks);
    }
  }

  lemma PopActiveKeeps<H, V>(s: State<H, V>, microtask: bool)
    requires Inv(s) && QueueOf(s, microtask) != [] && QueueOf(s, microtask)[0] in s.tasks
    ensures var id := QueueOf(s, microtask)[0];
            && s.tasks[id].readyRequested && s.tasks[id].pending.Some?
            && Inv(SetTask(PopQueue(s, microtask), id, Activated(s.tasks[id])).(current := Some(id)))
  {
    var id := QueueOf(s, microtask)[0];
    var task := Activated(s.tasks[id]);
    var m := SetTask(s, id, task);
    var r := SetTask(PopQueue(s, microtask), id, task).(current := Some(id));
    TimersUntouched(s, id, task);
    ReferencesUntouched(s, id, task);
    assert forall t :: Known(m, t) ==> Known(r, t);
    PopActiveKeepsQueues(s, microtask);
  }

  lemma PopActiveKeepsQueues<H, V>(s: State<H, V>, microtask: bool)
    requires QueueInv(s) && QueueOf(s, microtask) != [] && QueueOf(s, microtask)[0] in s.tasks
    ensures var id := QueueOf(s, microtask)[0];
            && s.tasks[id].readyRequested && s.tasks[id].pending.Some?
            && QueueInv(SetTask(PopQueue(s, microtask), id, Activated(s.tasks[id])).(current := Some(id)))
  {
    var id := QueueOf(s, microtask)[0];
    var r := SetTask(PopQueue(s, microtask), id, Activated(s.tasks[id])).(current := Some(id));
    TailFacts(QueueOf(s, microtask));
    assert WellQueued(s.tasks[id], id in s.ready, id in s.microtasks);
    forall x | x in r.tasks
      ensures WellQueued(r.tasks[x], x in r.ready, x in r.microtasks)
    {
      assert WellQueued(s.tasks[x], x in s.ready, x in s.microtasks);
    }
  }

  /** The first live entry of the queue is activated with what was pending for
      it; there is none to activate exactly when no live task is queued. */
  ghost predicate Activates<H, V>(
    s: State<H, V>, microtask: bool, r: State<H, V>, found: Option<ReadyActivation<H, V>>)
  {
    var live := LiveIds(s.tasks, QueueOf(s, microtask));
    && QueueOf(r, !microtask) == QueueOf(s, !microtask)
    && (if live == [] then found.None? && r.tasks == s.tasks && QueueOf(r, microtask) == []
        else
          && live[0] in s.tasks
          && s.tasks[live[0]].pending.Some?
          && found == Some(ReadyActivation(live[0], s.tasks[live[0]].coroutine, s.tasks[live[0]].pending.value))
          && r.current == Some(live[0])
          && r.tasks == s.tasks[live[0] := Activated(s.tasks[live[0]])]
          && LiveIds(r.tasks, QueueOf(r, microtask)) == live[1..])
  }

  lemma {:induction false} NextQueuedKeeps<H, V>(s: State<H, V>, microtask: bool)
    requires Inv(s)
    ensures Inv(NextQueued(s, microtask).0)
    ensures Activates(s, microtask, NextQueued(s, microtask).0, NextQueued(s, microtask).1)
    decreases |QueueOf(s, microtask)|
  {
    var queue := QueueOf(s, microtask);
    if queue != [] {
      if queue[0] in s.tasks {
        HeadActivates(s, microtask);
      } else {
        PopDeadKeeps(s, microtask);
        NextQueuedKeeps(PopQueue(s, microtask), microtask);
        DeadHeadSkipped(s, microtask, NextQueued(s, microtask).0, NextQueued(s, microtask).1);
      }
    }
  }

  lemma HeadActivates<H, V>(s: State<H, V>, microtask: bool)
    requires Inv(s) && QueueOf(s, microtask) != [] && QueueOf(s, microtask)[0] in s.tasks
    ensures Inv(NextQueued(s, microtask).0)
    ensures Activates(s, microtask, NextQueued(s, microtask).0, NextQueued(s, microtask).1)
  {
    PopActiveKeeps(s, microtask);
    var queue := QueueOf(s, microtask);
    var id := queue[0];
    var r := SetTask(PopQueue(s, microtask), id, Activated(s.tasks[id])).(current := Some(id));
    assert NextQueued(s, microtask).0 == r;
    LiveIdsSameKeys(s.tasks, r.tasks, queue[1..]);
    assert LiveIds(s.tasks, queue) == [id] + LiveIds(s.tasks, queue[1..]);
  }

  lemma DeadHeadSkipped<H, V>(
    s: State<H, V>, microtask: bool, r: State<H, V>, found: Option<ReadyActivation<H, V>>)
    requires QueueOf(s, microtask) != [] && QueueOf(s, microtask)[0] !in s.tasks
    requires Activates(PopQueue(s, microtask), microtask, r, found)
    ensures Activates(s, microtask, r, found)
  {
    var queue := QueueOf(s, microtask);
    assert LiveIds(s.tasks, queue) == LiveIds(s.tasks, queue[1..]);
  }

  /** Both queues' live tasks in activation order. */
  function LiveQueue<H, V>(s: State<H, V>): seq<TaskId> {
    LiveIds(s.tasks, s.microtasks) + LiveIds(s.tasks, s.ready)
  }

  /** Microtasks come first, then ready tasks, and nothing is activated only
      when neither queue holds a live task. */
  lemma NextActivatesInOrder<H, V>(s: State<H, V>)
    requires Inv(s)
    ensures Next(s).1.None? <==> LiveQueue(s) == []
    ensures LiveQueue(s) != [] ==> Next(s).1.value.id == LiveQueue(s)[0] && LiveQueue(Next(s).0) == LiveQueue(s)[1..]
    ensures Inv(Next(s).0)
  {
    NextQueuedKeeps(s, true);
    var (r, found) := NextQueued(s, true);
    if found.Some? {
      LiveIdsSameKeys(s.tasks, r.tasks, s.ready);
    } else {
      SecondQueueActivates(s, r);
    }
  }

  lemma SecondQueueActivates<H, V>(s: State<H, V>, r: State<H, V>)
    requires Inv(r) && r.tasks == s.tasks && r.ready == s.ready && r.microtasks == []
    requires LiveIds(s.tasks, s.microtasks) == []
    ensures var (r', found) := NextQueued(r, false);
            && Inv(r')
            && (found.None? <==> LiveQueue(s) == [])
            && (found.Some? ==> found.value.id == LiveQueue(s)[0] && LiveQueue(r') == LiveQueue(s)[1..])
  {
    NextQueuedKeeps(r, false);
    assert LiveQueue(s) == LiveIds(s.tasks, s.ready);
  }

  /** The live queue lists exactly the queued tasks of its kind. */
  lemma {:induction false} LiveIdsAre<H, V>(tasks: map<TaskId, Task<H, V>>, queue: seq<TaskId>, id: TaskId)
    ensures id in LiveIds(tasks, queue) <==> id in tasks && id in queue
  {
    if queue != [] {
      assert queue == [queue[0]] + queue[1..];
      LiveIdsAre(tasks, queue[1..], id);
    }
  }

  /** A queued live task occurs once over both queues, an unqueued one never. */
  lemma QueuedOnce<H, V>(s: State<H, V>, id: TaskId)
    requires Inv(s) && id in s.tasks
    ensures multiset(s.microtasks + s.ready)[id] == if s.tasks[id].queued then 1 else 0
    ensures s.tasks[id].queued ==> id in QueueOf(s, s.tasks[id].microtask) && s.tasks[id].pending.Some?
  {
    assert WellQueued(s.tasks[id], id in s.ready, id in s.microtasks);
    CountDistinct(s.microtasks, id);
    CountDistinct(s.ready, id);
    assert multiset(s.microtasks + s.ready) == multiset(s.microtasks) + multiset(s.ready);
  }

  lemma {:induction false} CountDistinct(q: seq<TaskId>, id: TaskId)
    requires Distinct(q)
    ensures multiset(q)[id] == if id in q then 1 else 0
  {
    if q != [] {
      TailFacts(q);
      assert q == [q[0]] + q[1..];
      CountDistinct(q[1..], id);
    }
  }

  lemma {:induction false} LiveIdsSameKeys<H, V>(
    a: map<TaskId, Task<H, V>>, b: map<TaskId, Task<H, V>>, queue: seq<TaskId>)
    requires a.Keys == b.Keys
    ensures LiveIds(a, queue) == LiveIds(b, queue)
  {
    if queue != [] {
      LiveIdsSameKeys(a, b, queue[1..]);
    }
  }

  // ----- Every reachable state -----

  lemma ApplyKeeps<H, V>(s: State<H, V>, op: Op<H, V>)
    requires Inv(s)
    ensures Inv(Apply(s, op))
  {
    hide Inv, Poll, PollNonblocking, NextQueued, Next;
    hide Spawn, InsertTask, ArmTimer, Cancel, Enqueue, Reference, Unreference;
    if op.OpPoll? || op.OpPollNonblocking? || op.OpNextMicrotask? || op.OpNextReady? || op.OpNext? {
      TurnKeeps(s, op);
    } else if op.OpArmDescriptor? || op.OpParkOnDescriptor? || op.OpDisarm? || op.OpClearCurrent? {
      SameCoreKeeps(s, Apply(s, op));
    } else {
      TaskOpKeeps(s, op);
    }
  }

  lemma TaskOpKeeps<H, V>(s: State<H, V>, op: Op<H, V>)
    requires Inv(s)
    requires || op.OpSpawn? || op.OpSpawnArmed? || op.OpArmTimer? || op.OpParkOnTimer?
             || op.OpUnreference? || op.OpReference? || op.OpCancel? || op.OpWake?
    ensures Inv(Apply(s, op))
  {
    hide Inv, Spawn, InsertTask, ArmTimer, Unreference, Reference, Cancel, Enqueue;
    match op {
      case OpSpawn(coroutine, arguments, microtask) => SpawnKeeps(s, coroutine, arguments, microtask);
      case OpSpawnArmed(coroutine, arguments) => InsertKeeps(s, coroutine, arguments, false);
      case OpArmTimer(id, deadline) => ArmKeeps(s, id, deadline);
      case OpParkOnTimer(deadline) => if s.current.Some? { ArmKeeps(s, s.current.value, deadline); }
      case OpUnreference(id) => ReferenceKeeps(s, id, false);
      case OpReference(id) => ReferenceKeeps(s, id, true);
      case OpCancel(id) => CancelKeeps(s, id);
      case OpWake(id, activation, front) => EnqueueKeeps(s, id, activation, front);
    }
  }

  lemma TurnKeeps<H, V>(s: State<H, V>, op: Op<H, V>)
    requires Inv(s)
    requires op.OpPoll? || op.OpPollNonblocking? || op.OpNextMicrotask? || op.OpNextReady? || op.OpNext?
    ensures Inv(Apply(s, op))
  {
    hide Inv, Poll, WakeExpired, HandleReadiness, NextQueued, Next;
    match op {
      case OpPoll(readiness, now) => PollKeeps(s, readiness, now);
      case OpPollNonblocking(readiness, now) => WakeExpiredKeeps(s, now); HandleKeeps(s, readiness, now);
      case OpNextMicrotask => NextQueuedKeeps(s, true);
      case OpNextReady => NextQueuedKeeps(s, false);
      case OpNext => NextActivatesInOrder(s);
    }
  }

  lemma SpawnKeeps<H, V>(s: State<H, V>, coroutine: H, arguments: seq<V>, microtask: bool)
    requires Inv(s)
    ensures Inv(Spawn(s, coroutine, arguments, microtask))
  {
    InsertKeeps(s, coroutine, arguments, microtask);
    MarkKeeps(InsertTask(s, coroutine, arguments, microtask), s.nextId, false);
  }

  lemma CancelKeeps<H, V>(s: State<H, V>, id: TaskId)
    requires Inv(s)
    ensures Inv(Cancel(s, id))
  {
    DisarmKeeps(s, id);
    RemoveKeeps(Disarm(s, id), id);
  }

  lemma PollKeeps<H, V>(s: State<H, V>, readiness: Option<seq<TaskId>>, now: int)
    requires Inv(s)
    ensures Inv(Poll(s, readiness, now))
  {
    PruneKeeps(s);
    HandleKeeps(PruneHead(s), readiness, now);
  }

  lemma {:induction false} RunKeeps<H, V>(s: State<H, V>, ops: seq<Op<H, V>>)
    requires Inv(s)
    ensures Inv(Run(s, ops))
    decreases |ops|
  {
    if ops != [] {
      ApplyKeeps(s, ops[0]);
      RunKeeps(Apply(s, ops[0]), ops[1..]);
    }
  }

  /** Every state any run of the scheduler reaches satisfies the invariant. */
  lemma ReachableStates<H, V>(idle: V, ops: seq<Op<H, V>>)
    ensures Inv(Run(Initial<H, V>(idle), ops))
  {
    var s := Initial<H, V>(idle);
    assert Armed(s.tasks) == {} && Referenced(s.tasks) == {};
    RunKeeps(s, ops);
  }
}
