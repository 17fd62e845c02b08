/** What each operation of the event loop does, said of the tasks, the queues and
    the waits, and what follows for whole runs: an activation is delivered once,
    to its task, with the value it was queued with. */
module EventLoopEffects {
  import opened Wrappers
  import opened EventLoop
  import opened EventLoopInvariants
  import opened EventLoopTimers
  import opened EventLoopPolling

  // ----- What changes, and what does not -----

  ghost predicate SameTasks<H, V>(s: State<H, V>, r: State<H, V>) {
    r.tasks == s.tasks && r.nextId == s.nextId
  }

  ghost predicate SameQueues<H, V>(s: State<H, V>, r: State<H, V>) {
    r.ready == s.ready && r.microtasks == s.microtasks
  }

  ghost predicate SameWaits<H, V>(s: State<H, V>, r: State<H, V>) {
    r.waiters == s.waiters && r.registrations == s.registrations
  }

  /** The entries that can still fire are in the heap. */
  ghost predicate TimersKept<H, V>(s: State<H, V>, r: State<H, V>) {
    LiveKept(s.timers, r)
  }

  /** A task joins one queue, at its front or its back. */
  ghost predicate Joins<H, V>(s: State<H, V>, r: State<H, V>, id: TaskId, microtask: bool, front: bool) {
    && QueueOf(r, microtask) == (if front then [id] + QueueOf(s, microtask) else QueueOf(s, microtask) + [id])
    && QueueOf(r, !microtask) == QueueOf(s, !microtask)
  }

  // ----- The operations -----

  ghost predicate Spawns<H, V>(
    s: State<H, V>, coroutine: H, arguments: seq<V>, microtask: bool, queued: bool, r: State<H, V>)
  {
    && r.tasks == s.tasks[s.nextId := Task(coroutine, Some(Start(arguments)), queued, microtask, true, queued, 0, None)]
    && r.nextId == s.nextId + 1
    && (if queued then Joins(s, r, s.nextId, microtask, false) else SameQueues(s, r))
    && SameWaits(s, r) && r.timers == s.timers && r.current == s.current && r.idle == s.idle
  }

  /** The task's timer is set for its current generation, and its entry is due
      from the deadline on. */
  ghost predicate Arms<H, V>(s: State<H, V>, id: TaskId, deadline: int, r: State<H, V>) {
    if id !in s.tasks then r == s
    else
      var generation := s.tasks[id].generation;
      && r.tasks == s.tasks[id := s.tasks[id].(timerGeneration := Some(generation))] && r.nextId == s.nextId
      && Timer(deadline, id, generation) in r.timers
      && (forall now :: now >= deadline ==> Due(r, now, id))
      && (forall t :: t in s.timers && Live(r.tasks, t) ==> t in r.timers)
      && (forall t :: t in r.timers ==> t in s.timers || t == Timer(deadline, id, generation))
      && SameQueues(s, r) && SameWaits(s, r) && r.current == s.current && r.idle == s.idle
  }

  /** What the reactor must answer for a registration to succeed. */
  predicate Accepts<H, V>(s: State<H, V>, id: TaskId, fd: Descriptor, interest: Interest, reactor: Reactor) {
    if id in s.registrations && s.registrations[id].0 == fd
    then (s.registrations[id].1 == interest && !reactor.requiresRearm) || reactor.rearmed
    else (id in s.registrations ==> reactor.deregistered) && reactor.registered
  }

  ghost predicate ArmsDescriptor<H, V>(
    s: State<H, V>, id: TaskId, fd: Descriptor, interest: Interest, reactor: Reactor, r: State<H, V>)
  {
    && r == s.(waiters := r.waiters, registrations := r.registrations)
    && (if Accepts(s, id, fd, interest, reactor)
        then r.waiters == s.waiters[id := fd] && r.registrations == s.registrations[id := (fd, interest)]
        else r.waiters == s.waiters &&
             (r.registrations == s.registrations || r.registrations == s.registrations - {id}))
  }

  ghost predicate Refers<H, V>(s: State<H, V>, id: TaskId, referenced: bool, r: State<H, V>) {
    && r == s.(tasks := r.tasks, referencedTasks := r.referencedTasks)
    && r.tasks == if id in s.tasks then s.tasks[id := s.tasks[id].(referenced := referenced)] else s.tasks
  }

  ghost predicate Cancels<H, V>(s: State<H, V>, id: TaskId, r: State<H, V>) {
    && r.tasks == s.tasks - {id} && r.nextId == s.nextId
    && r.waiters == s.waiters - {id} && r.registrations == s.registrations - {id}
    && SameQueues(s, r) && TimersKept(s, r) && r.current == s.current && r.idle == s.idle
  }

  /** A task already queued keeps what it was queued with; any other is queued
      with the activation, in its next generation, and waits for nothing. */
  ghost predicate Wakes<H, V>(s: State<H, V>, id: TaskId, activation: Activation<V>, front: bool, r: State<H, V>) {
    if id !in s.tasks || s.tasks[id].queued then r == s
    else
      var task := s.tasks[id];
      && r.tasks == s.tasks[id :=
           Task(task.coroutine, Some(activation), true, task.microtask, task.referenced, true,
                task.generation + 1, None)]
      && r.nextId == s.nextId
      && r.waiters == s.waiters - {id} && r.registrations == s.registrations - {id}
      && Joins(s, r, id, task.microtask, front)
      && TimersKept(s, r) && r.current == s.current && r.idle == s.idle
  }

  ghost predicate PollsQuietly<H, V>(s: State<H, V>, r: State<H, V>) {
    r == s.(timers := r.timers, staleTimers := r.staleTimers)
  }

  /** What the operation hands to the driver. */
  function Found<H, V>(s: State<H, V>, op: Op<H, V>): Option<ReadyActivation<H, V>> {
    match op
    case OpNextMicrotask => NextQueued(s, true).1
    case OpNextReady => NextQueued(s, false).1
    case OpNext => Next(s).1
    case _ => None
  }

  ghost predicate Does<H, V>(s: State<H, V>, op: Op<H, V>, r: State<H, V>) {
    match op
    case OpSpawn(coroutine, arguments, microtask) => Spawns(s, coroutine, arguments, microtask, true, r)
    case OpSpawnArmed(coroutine, arguments) => Spawns(s, coroutine, arguments, false, false, r)
    case OpArmTimer(id, deadline) => Arms(s, id, deadline, r)
    case OpParkOnTimer(deadline) => if s.current.Some? then Arms(s, s.current.value, deadline, r) else r == s
    case OpArmDescriptor(id, fd, interest, reactor) => ArmsDescriptor(s, id, fd, interest, reactor, r)
    case OpParkOnDescriptor(fd, interest, reactor) =>
      if s.current.Some? then ArmsDescriptor(s, s.current.value, fd, interest, reactor, r) else r == s
    case OpUnreference(id) => Refers(s, id, false, r)
    case OpReference(id) => Refers(s, id, true, r)
    case OpCancel(id) => Cancels(s, id, r)
    case OpDisarm(id) => r == s.(waiters := s.waiters - {id}, registrations := s.registrations - {id})
    case OpWake(id, activation, front) => Wakes(s, id, activation, front, r)
    case OpPoll(readiness, now) => if readiness.Some? then Polled(s, readiness.value, now, r) else PollsQuietly(s, r)
    case OpPollNonblocking(readiness, now) =>
      if s.waiters == map[] then Polled(s, [], now, r)
      else if readiness.Some? then Polled(s, readiness.value, now, r) else r == s
    case OpNextMicrotask => Activates(s, true, r, Found(s, op))
    case OpNextReady => Activates(s, false, r, Found(s, op))
    case OpNext => ActivatesEither(s, r, Found(s, op))
    case OpClearCurrent => r == s.(current := None)
  }

  /** A microtask if one is queued, otherwise a ready task. */
  ghost predicate ActivatesEither<H, V>(s: State<H, V>, r: State<H, V>, found: Option<ReadyActivation<H, V>>) {
    if LiveIds(s.tasks, s.microtasks) != [] then Activates(s, true, r, found)
    else Activates(s.(microtasks := []), false, r, found)
  }

  // ----- Each does so -----

  lemma SpawnDoes<H, V>(s: State<H, V>, coroutine: H, arguments: seq<V>, microtask: bool)
    requires Inv(s)
    ensures Spawns(s, coroutine, arguments, microtask, true, Spawn(s, coroutine, arguments, microtask))
    ensures Spawns(s, coroutine, arguments, false, false, InsertTask(s, coroutine, arguments, false))
  {
    hide Inv, MarkQueued;
    var inserted := InsertTask(s, coroutine, arguments, microtask);
    MarkIs(inserted, s.nextId);
  }

  lemma ArmDoes<H, V>(s: State<H, V>, id: TaskId, deadline: int)
    requires Inv(s)
    ensures Arms(s, id, deadline, ArmTimer(s, id, deadline))
  {
    if id in s.tasks {
      var r := ArmTimer(s, id, deadline);
      var timer := Timer(deadline, id, s.tasks[id].generation);
      var timers := Push(s.timers, timer);
      PushKeeps(s.timers, timer);
      LiveOnlyKeeps(r.tasks, timers);
      assert r.timers == timers || r.timers == LiveOnly(r.tasks, timers);
      hide CompactTimers, Push, LiveOnly;
      assert Live(r.tasks, timer) && timer in r.timers;
    }
  }

  lemma DescriptorDoes<H, V>(s: State<H, V>, id: TaskId, fd: Descriptor, interest: Interest, reactor: Reactor)
    ensures ArmsDescriptor(s, id, fd, interest, reactor, ArmDescriptor(s, id, fd, interest, reactor))
  {
    assert id !in s.registrations ==> s.registrations - {id} == s.registrations;
    assert (s.registrations - {id})[id := (fd, interest)] == s.registrations[id := (fd, interest)];
    assert id in s.registrations ==> s.registrations[id := s.registrations[id]] == s.registrations;
  }

  lemma ReferenceDoes<H, V>(s: State<H, V>, id: TaskId)
    ensures Refers(s, id, false, Unreference(s, id)) && Refers(s, id, true, Reference(s, id))
  {
    if id in s.tasks {
      assert s.tasks[id := s.tasks[id]] == s.tasks;
    }
  }

  lemma CancelDoes<H, V>(s: State<H, V>, id: TaskId)
    requires Inv(s)
    ensures Cancels(s, id, Cancel(s, id))
  {
    var disarmed := Disarm(s, id);
    if id in s.tasks {
      var task := s.tasks[id];
      var removed := disarmed.(
        tasks := s.tasks - {id},
        referencedTasks := if task.referenced then s.referencedTasks - 1 else s.referencedTasks);
      InvalidateKeepsLive(removed, task.timerGeneration.Some?);
      hide Invalidate, LiveKept;
      assert Cancel(s, id) == Invalidate(removed, task.timerGeneration.Some?);
    } else {
      assert s.tasks - {id} == s.tasks;
    }
  }

  lemma WakeDoes<H, V>(s: State<H, V>, id: TaskId, activation: Activation<V>, front: bool)
    requires Inv(s)
    ensures Wakes(s, id, activation, front, Enqueue(s, id, activation, front))
  {
    if id in s.tasks {
      assert WellQueued(s.tasks[id], id in s.ready, id in s.microtasks);
      assert Sorted(s.timers);
      hide Inv;
      if !s.tasks[id].queued {
        ParkedWakes(s, id, activation, front);
      }
    }
  }

  lemma ParkedWakes<H, V>(s: State<H, V>, id: TaskId, activation: Activation<V>, front: bool)
    requires id in s.tasks && !s.tasks[id].queued && !s.tasks[id].readyRequested && Sorted(s.timers)
    ensures Wakes(s, id, activation, front, Enqueue(s, id, activation, front))
  {
    var task := s.tasks[id];
    var woken := Disarm(SetTask(s, id, Woken(task, activation)), id);
    var armed := task.timerGeneration.Some?;
    hide Invalidate, LiveKept, MarkQueued, Sorted;
    InvalidateKeepsLive(woken, armed);
    var settled := Invalidate(woken, armed);
    assert settled == woken.(
      timers := settled.timers, liveTimers := settled.liveTimers, staleTimers := settled.staleTimers);
    MarkAtIs(settled, id, front);
    var r := MarkQueued(settled, id, front);
    LiveIgnoresQueueing(settled, r, id);
    KeptStays(s.timers, settled, r);
    assert r.tasks == s.tasks[id :=
      Task(task.coroutine, Some(activation), true, task.microtask, task.referenced, true, task.generation + 1, None)];
    assert Enqueue(s, id, activation, front) == r;
  }

  lemma KeptStays<H, V>(timers: seq<Timer>, s: State<H, V>, r: State<H, V>)
    requires LiveKept(timers, s) && r.timers == s.timers
    requires forall t :: Live(r.tasks, t) <==> Live(s.tasks, t)
    ensures LiveKept(timers, r)
  {
    hide Live;
  }

  lemma MarkAtIs<H, V>(s: State<H, V>, id: TaskId, front: bool)
    requires id in s.tasks && !s.tasks[id].queued
    ensures var r := MarkQueued(s, id, front);
            && r == s.(tasks := s.tasks[id := s.tasks[id].(queued := true, readyRequested := true)],
                       ready := r.ready, microtasks := r.microtasks)
            && Joins(s, r, id, s.tasks[id].microtask, front)
  {
  }

  lemma NextDoes<H, V>(s: State<H, V>)
    requires Inv(s)
    ensures ActivatesEither(s, Next(s).0, Next(s).1)
  {
    hide Inv, NextQueued;
    NextQueuedKeeps(s, true);
    var (r, found) := NextQueued(s, true);
    if found.None? {
      NextQueuedKeeps(r, false);
      NothingSkipped(s, true);
    }
  }

  lemma {:induction false} NothingSkipped<H, V>(s: State<H, V>, microtask: bool)
    requires NextQueued(s, microtask).1.None? && LiveIds(s.tasks, QueueOf(s, microtask)) == []
    ensures var r := NextQueued(s, microtask).0;
            r == if microtask then s.(microtasks := []) else s.(ready := [])
    decreases |QueueOf(s, microtask)|
  {
    if QueueOf(s, microtask) != [] {
      NothingSkipped(PopQueue(s, microtask), microtask);
    }
  }

  /** Every operation does what is said of it, in every state a run can reach. */
  lemma ApplyDoes<H, V>(s: State<H, V>, op: Op<H, V>)
    requires Inv(s)
    ensures Does(s, op, Apply(s, op))
  {
    hide Inv, Spawns, Arms, ArmsDescriptor, Refers, Cancels, Wakes, Polled, Activates, ActivatesEither;
    hide Poll, PollNonblocking, NextQueued, Next, Spawn, InsertTask, ArmTimer, Cancel, Enqueue, Reference, Unreference;
    match op {
      case OpSpawn(coroutine, arguments, microtask) => SpawnDoes(s, coroutine, arguments, microtask);
      case OpSpawnArmed(coroutine, arguments) => SpawnDoes(s, coroutine, arguments, false);
      case OpArmTimer(id, deadline) => ArmDoes(s, id, deadline);
      case OpParkOnTimer(deadline) =>
        if s.current.Some? {
          ArmDoes(s, s.current.value, deadline);
        }
      case OpArmDescriptor(id, fd, interest, reactor) => DescriptorDoes(s, id, fd, interest, reactor);
      case OpParkOnDescriptor(fd, interest, reactor) =>
        if s.current.Some? {
          DescriptorDoes(s, s.current.value, fd, interest, reactor);
        }
      case OpUnreference(id) => ReferenceDoes(s, id);
      case OpReference(id) => ReferenceDoes(s, id);
      case OpCancel(id) => CancelDoes(s, id);
      case OpDisarm(_) =>
      case OpWake(id, activation, front) => WakeDoes(s, id, activation, front);
      case OpPoll(readiness, now) =>
        FailedPollIsQuiet(s, now);
        if readiness.Some? {
          PollIsExact(s, readiness.value, now);
        }
      case OpPollNonblocking(readiness, now) => NonblockingIsExact(s, readiness, now);
      case OpNextMicrotask => NextQueuedKeeps(s, true);
      case OpNextReady => NextQueuedKeeps(s, false);
      case OpNext => NextDoes(s);
      case OpClearCurrent =>
    }
  }

  // ----- Delivery -----

  /** The task is queued, to be activated with this. */
  ghost predicate Awaits<H, V>(s: State<H, V>, id: TaskId, coroutine: H, activation: Activation<V>) {
    id in s.tasks && s.tasks[id].queued && s.tasks[id].coroutine == coroutine && s.tasks[id].pending == Some(activation)
  }

  ghost predicate Hands<H, V>(s: State<H, V>, op: Op<H, V>, id: TaskId) {
    Found(s, op).Some? && Found(s, op).value.id == id
  }

  lemma ActivationStays<H, V>(
    s: State<H, V>, microtask: bool, r: State<H, V>, found: Option<ReadyActivation<H, V>>,
    id: TaskId, coroutine: H, activation: Activation<V>)
    requires Activates(s, microtask, r, found) && Awaits(s, id, coroutine, activation)
    ensures if found.Some? && found.value.id == id then found.value == ReadyActivation(id, coroutine, activation)
            else Awaits(r, id, coroutine, activation)
  {
  }

  lemma SpawnStays<H, V>(s: State<H, V>, op: Op<H, V>, r: State<H, V>, id: TaskId)
    requires (op.OpSpawn? || op.OpSpawnArmed?) && Does(s, op, r) && id in s.tasks && id < s.nextId
    ensures id in r.tasks && r.tasks[id] == s.tasks[id]
  {
  }

  lemma TimerStays<H, V>(s: State<H, V>, other: TaskId, deadline: int, r: State<H, V>, id: TaskId)
    requires Arms(s, other, deadline, r) && id in s.tasks
    ensures id in r.tasks && r.tasks[id] == s.tasks[id].(timerGeneration := r.tasks[id].timerGeneration)
  {
    hide Due, Live;
  }

  lemma PollStays<H, V>(s: State<H, V>, keys: seq<TaskId>, now: int, r: State<H, V>, id: TaskId)
    requires Polled(s, keys, now, r) && id in s.tasks && s.tasks[id].queued && s.tasks[id].pending.Some?
    ensures id in r.tasks && r.tasks[id].queued
    ensures r.tasks[id].coroutine == s.tasks[id].coroutine && r.tasks[id].pending == s.tasks[id].pending
  {
    hide QueueJoined, Due;
    assert r.tasks[id] == PolledTask(s, keys, now, id);
  }

  lemma WakeStays<H, V>(
    s: State<H, V>, other: TaskId, activation: Activation<V>, front: bool, r: State<H, V>, id: TaskId)
    requires Wakes(s, other, activation, front, r) && id in s.tasks && s.tasks[id].queued
    ensures id in r.tasks && r.tasks[id] == s.tasks[id]
  {
    hide LiveKept, Joins;
  }

  ghost predicate Settles<H, V>(s: State<H, V>, op: Op<H, V>, id: TaskId, coroutine: H, activation: Activation<V>) {
    if Hands(s, op, id) then Found(s, op).value == ReadyActivation(id, coroutine, activation)
    else Awaits(Apply(s, op), id, coroutine, activation)
  }

  ghost predicate IsTurn<H, V>(op: Op<H, V>) {
    op.OpPoll? || op.OpPollNonblocking? || op.OpNextMicrotask? || op.OpNextReady? || op.OpNext?
  }

  lemma TaskOpStays<H, V>(s: State<H, V>, op: Op<H, V>, id: TaskId, coroutine: H, activation: Activation<V>)
    requires Does(s, op, Apply(s, op)) && Awaits(s, id, coroutine, activation) && id < s.nextId
    requires !IsTurn(op) && op != OpCancel(id)
    ensures Settles(s, op, id, coroutine, activation)
  {
    hide Apply, Arms, Wakes, Spawns, ArmsDescriptor, LiveKept;
    var r := Apply(s, op);
    match op {
      case OpSpawn(_, _, _) => SpawnStays(s, op, r, id);
      case OpSpawnArmed(_, _) => SpawnStays(s, op, r, id);
      case OpArmTimer(other, deadline) => TimerStays(s, other, deadline, r, id);
      case OpParkOnTimer(deadline) =>
        if s.current.Some? {
          TimerStays(s, s.current.value, deadline, r, id);
        }
      case OpArmDescriptor(other, fd, interest, reactor) => DescriptorStays(s, other, fd, interest, reactor, r);
      case OpParkOnDescriptor(fd, interest, reactor) =>
        if s.current.Some? {
          DescriptorStays(s, s.current.value, fd, interest, reactor, r);
        }
      case OpWake(other, value, front) => WakeStays(s, other, value, front, r, id);
      case _ =>
    }
  }

  lemma TurnStays<H, V>(s: State<H, V>, op: Op<H, V>, id: TaskId, coroutine: H, activation: Activation<V>)
    requires Does(s, op, Apply(s, op)) && Awaits(s, id, coroutine, activation) && IsTurn(op)
    ensures Settles(s, op, id, coroutine, activation)
  {
    hide Apply, Activates, Polled, NextQueued, Next;
    var r := Apply(s, op);
    match op {
      case OpPoll(readiness, now) =>
        if readiness.Some? {
          PollStays(s, readiness.value, now, r, id);
        }
      case OpPollNonblocking(readiness, now) =>
        if s.waiters == map[] {
          PollStays(s, [], now, r, id);
        } else if readiness.Some? {
          PollStays(s, readiness.value, now, r, id);
        }
      case OpNextMicrotask => ActivationStays(s, true, r, Found(s, op), id, coroutine, activation);
      case OpNextReady => ActivationStays(s, false, r, Found(s, op), id, coroutine, activation);
      case OpNext =>
        if LiveIds(s.tasks, s.microtasks) != [] {
          ActivationStays(s, true, r, Found(s, op), id, coroutine, activation);
        } else {
          ActivationStays(s.(microtasks := []), false, r, Found(s, op), id, coroutine, activation);
        }
    }
  }

  /** A queued activation stays as it is until it is handed out or its task is
      cancelled. */
  lemma QueuedStays<H, V>(s: State<H, V>, op: Op<H, V>, id: TaskId, coroutine: H, activation: Activation<V>)
    requires Inv(s) && Awaits(s, id, coroutine, activation)
    ensures op == OpCancel(id) || Settles(s, op, id, coroutine, activation)
  {
    ApplyDoes(s, op);
    assert id < s.nextId;
    hide Inv, Apply, Does, Settles;
    if IsTurn(op) {
      TurnStays(s, op, id, coroutine, activation);
    } else if op != OpCancel(id) {
      TaskOpStays(s, op, id, coroutine, activation);
    }
  }

  lemma DescriptorStays<H, V>(
    s: State<H, V>, id: TaskId, fd: Descriptor, interest: Interest, reactor: Reactor, r: State<H, V>)
    requires ArmsDescriptor(s, id, fd, interest, reactor, r)
    ensures r.tasks == s.tasks
  {
  }

  /** No activation is lost, duplicated or mixed up: in any continuation a queued
      activation waits untouched up to some point, and there the run ends, the
      task is cancelled, or exactly that activation is handed out. */
  lemma {:induction false} QueuedIsDelivered<H, V>(
    s: State<H, V>, ops: seq<Op<H, V>>, id: TaskId, coroutine: H, activation: Activation<V>) returns (k: nat)
    requires Inv(s) && Awaits(s, id, coroutine, activation)
    ensures k <= |ops| && forall j: nat :: j <= k ==> Awaits(Run(s, ops[..j]), id, coroutine, activation)
    ensures forall j: nat :: j < k ==> !Hands(Run(s, ops[..j]), ops[j], id)
    ensures k < |ops| ==>
      || ops[k] == OpCancel(id)
      || Found(Run(s, ops[..k]), ops[k]) == Some(ReadyActivation(id, coroutine, activation))
    decreases |ops|
  {
    hide Inv, Apply, Awaits, Hands, Found;
    assert Run(s, []) == s;
    k := 0;
    if ops == [] {
      assert ops[..0] == [];
    } else {
      assert ops[..0] == [];
      QueuedStays(s, ops[0], id, coroutine, activation);
      if ops[0] == OpCancel(id) || Hands(s, ops[0], id) {
        HandedIs(s, ops[0], id);
        return;
      }
      ApplyKeeps(s, ops[0]);
      var rest := QueuedIsDelivered(Apply(s, ops[0]), ops[1..], id, coroutine, activation);
      k := rest + 1;
      forall j: nat | 0 < j <= |ops|
        ensures Run(s, ops[..j]) == Run(Apply(s, ops[0]), ops[1..][..j - 1])
      {
        assert ops[..j][1..] == ops[1..][..j - 1];
      }
      forall j: nat | j <= k
        ensures Awaits(Run(s, ops[..j]), id, coroutine, activation)
        ensures j < k ==> !Hands(Run(s, ops[..j]), ops[j], id)
      {
        if j > 0 {
          assert j < k ==> ops[j] == ops[1..][j - 1];
        }
      }
    }
  }

  lemma HandedIs<H, V>(s: State<H, V>, op: Op<H, V>, id: TaskId)
    ensures Hands(s, op, id) ==> Found(s, op).Some?
  {
  }

  // ----- Draining the queues -----

  lemma {:induction false} LiveIdsCount<H, V>(tasks: map<TaskId, Task<H, V>>, queue: seq<TaskId>, id: TaskId)
    ensures multiset(LiveIds(tasks, queue))[id] <= multiset(queue)[id]
  {
    if queue != [] {
      assert queue == [queue[0]] + queue[1..];
      LiveIdsCount(tasks, queue[1..], id);
    }
  }

  lemma LiveQueueOnce<H, V>(s: State<H, V>, i: nat, j: nat)
    requires Inv(s) && i < j < |LiveQueue(s)|
    ensures LiveQueue(s)[i] != LiveQueue(s)[j]
  {
    var a, b := LiveIds(s.tasks, s.microtasks), LiveIds(s.tasks, s.ready);
    var id := LiveQueue(s)[i];
    LiveIdsAre(s.tasks, s.microtasks, id);
    LiveIdsAre(s.tasks, s.ready, id);
    assert id in a || id in b;
    QueuedOnce(s, id);
    LiveIdsCount(s.tasks, s.microtasks, id);
    LiveIdsCount(s.tasks, s.ready, id);
    assert multiset(a + b) == multiset(a) + multiset(b);
    assert multiset(s.microtasks + s.ready) == multiset(s.microtasks) + multiset(s.ready);
    if id == LiveQueue(s)[j] {
      Twice(LiveQueue(s), i, j);
    }
  }

  function Turns<H, V>(s: State<H, V>, n: nat): State<H, V>
    decreases n
  {
    if n == 0 then s else Turns(Next(s).0, n - 1)
  }

  /** Turn after turn the live tasks are activated in queue order, microtasks
      first, each with what it was queued with. */
  lemma {:induction false} DrainsInOrder<H, V>(s: State<H, V>, n: nat)
    requires Inv(s) && n < |LiveQueue(s)|
    ensures var id := LiveQueue(s)[n];
            && id in s.tasks && s.tasks[id].pending.Some?
            && Next(Turns(s, n)).1 == Some(ReadyActivation(id, s.tasks[id].coroutine, s.tasks[id].pending.value))
    decreases n
  {
    hide Inv, NextQueued, LiveIds, Next;
    var id := LiveQueue(s)[n];
    QueuedHead(s, n);
    NextActivatesInOrder(s);
    ApplyDoes(s, OpNext);
    if n == 0 {
      HeadHanded(s);
    } else {
      LiveQueueOnce(s, 0, n);
      OthersStay(s, id);
      DrainsInOrder(Next(s).0, n - 1);
    }
  }

  lemma QueuedHead<H, V>(s: State<H, V>, n: nat)
    requires Inv(s) && n < |LiveQueue(s)|
    ensures LiveQueue(s)[n] in s.tasks && s.tasks[LiveQueue(s)[n]].pending.Some?
  {
    var id := LiveQueue(s)[n];
    LiveIdsAre(s.tasks, s.microtasks, id);
    LiveIdsAre(s.tasks, s.ready, id);
    assert id in LiveIds(s.tasks, s.microtasks) || id in LiveIds(s.tasks, s.ready);
    QueuedOnce(s, id);
    assert WellQueued(s.tasks[id], id in s.ready, id in s.microtasks);
  }

  lemma HeadHanded<H, V>(s: State<H, V>)
    requires ActivatesEither(s, Next(s).0, Next(s).1) && LiveQueue(s) != []
    ensures var id := LiveQueue(s)[0];
            && id in s.tasks && s.tasks[id].pending.Some?
            && Next(s).1 == Some(ReadyActivation(id, s.tasks[id].coroutine, s.tasks[id].pending.value))
  {
    hide Next;
  }

  lemma OthersStay<H, V>(s: State<H, V>, id: TaskId)
    requires ActivatesEither(s, Next(s).0, Next(s).1) && LiveQueue(s) != [] && id != LiveQueue(s)[0] && id in s.tasks
    ensures id in Next(s).0.tasks && Next(s).0.tasks[id] == s.tasks[id]
  {
    hide Next;
  }

  // ----- What the driver asks -----

  /** There is a wake source exactly if some task's timer is set or something
      waits on a descriptor. */
  lemma WakeSourceIff<H, V>(s: State<H, V>)
    requires Inv(s)
    ensures HasWakeSource(s) <==>
            (exists id :: id in s.tasks && s.tasks[id].timerGeneration.Some?) || s.waiters != map[]
  {
    if id :| id in s.tasks && s.tasks[id].timerGeneration.Some? {
      assert id in Armed(s.tasks);
    } else {
      assert Armed(s.tasks) == {};
    }
  }
}
