/** The scheduler itself: fields updated in place, each public method one
    operation of the event loop, the invariant kept by all of them. */
module Scheduler {
  import opened Wrappers
  import opened EventLoop
  import opened EventLoopInvariants
  import opened EventLoopEffects
  import opened EventLoopPolling
  import opened EventLoopTimers

  class Scheduler<H, V> {
    var tasks: map<TaskId, Task<H, V>>
    var referencedTasks: int
    var ready: seq<TaskId>
    var microtasks: seq<TaskId>
    var waiters: map<TaskId, Descriptor>
    var registrations: map<TaskId, (Descriptor, Interest)>
    var timers: seq<Timer>
    var liveTimers: int
    var staleTimers: int
    var current: Option<TaskId>
    var nextId: nat
    const idle: V

    ghost function Value(): State<H, V>
      reads this
    {
      State(tasks, referencedTasks, ready, microtasks, waiters, registrations,
            timers, liveTimers, staleTimers, current, nextId, idle)
    }

    ghost predicate Valid()
      reads this
    {
      Inv(Value())
    }

    constructor (idle: V)
      ensures Valid() && Value() == Initial(idle)
    {
      tasks, referencedTasks, ready, microtasks := map[], 0, [], [];
      waiters, registrations, timers := map[], map[], [];
      liveTimers, staleTimers, current, nextId := 0, 0, None, 0;
      this.idle := idle;
      new;
      ReachableStates<H, V>(idle, []);
    }

    // ----- New tasks -----

    method Insert(coroutine: H, arguments: seq<V>, microtask: bool) returns (id: TaskId)
      modifies this
      ensures Value() == InsertTask(old(Value()), coroutine, arguments, microtask) && id == old(nextId)
    {
      id := nextId;
      nextId := nextId + 1;
      tasks := tasks[id := Task(coroutine, Some(Start(arguments)), false, microtask, true, false, 0, None)];
      referencedTasks := referencedTasks + 1;
    }

    method Mark(id: TaskId, front: bool)
      modifies this
      ensures Value() == MarkQueued(old(Value()), id, front)
    {
      if id in tasks {
        var task := tasks[id];
        tasks := tasks[id := task.(readyRequested := true, queued := true)];
        if !task.queued {
          match (task.microtask, front) {
            case (true, true) => microtasks := [id] + microtasks;
            case (true, false) => microtasks := microtasks + [id];
            case (false, true) => ready := [id] + ready;
            case (false, false) => ready := ready + [id];
          }
        }
      }
    }

    /** Registers a coroutine as a ready task, or as a microtask. */
    method Spawn(coroutine: H, arguments: seq<V>, microtask: bool) returns (id: TaskId)
      requires Valid()
      modifies this
      ensures Valid() && Value() == Apply(old(Value()), OpSpawn(coroutine, arguments, microtask))
      ensures Does(old(Value()), OpSpawn(coroutine, arguments, microtask), Value())
      ensures id == old(nextId)
    {
      hide Inv, MarkQueued, Does;
      ApplyDoes(Value(), OpSpawn(coroutine, arguments, microtask));
      ApplyKeeps(Value(), OpSpawn(coroutine, arguments, microtask));
      id := Insert(coroutine, arguments, microtask);
      Mark(id, false);
    }

    /** Adds a task that waits for a timer or descriptor before its first run. */
    method SpawnArmed(coroutine: H, arguments: seq<V>) returns (id: TaskId)
      requires Valid()
      modifies this
      ensures Valid() && Value() == Apply(old(Value()), OpSpawnArmed(coroutine, arguments))
      ensures Does(old(Value()), OpSpawnArmed(coroutine, arguments), Value())
      ensures id == old(nextId)
    {
      hide Inv, Does;
      ApplyDoes(Value(), OpSpawnArmed(coroutine, arguments));
      ApplyKeeps(Value(), OpSpawnArmed(coroutine, arguments));
      id := Insert(coroutine, arguments, false);
    }

    // ----- Timers -----

    method Compact()
      modifies this`timers, this`staleTimers
      ensures Value() == CompactTimers(old(Value()))
    {
      if staleTimers < TIMER_COMPACTION_THRESHOLD || staleTimers < (|timers| + 1) / 2 {
        return;
      }
      var retained := Retain(tasks, timers);
      timers, staleTimers := retained, 0;
    }

    method Arm(id: TaskId, deadline: int)
      modifies this
      ensures Value() == ArmTimer(old(Value()), id, deadline)
    {
      if id in tasks {
        var task := tasks[id];
        if task.timerGeneration.Some? {
          staleTimers := staleTimers + 1;
        } else {
          liveTimers := liveTimers + 1;
        }
        tasks := tasks[id := task.(timerGeneration := Some(task.generation))];
        timers := Push(timers, Timer(deadline, id, task.generation));
        Compact();
      }
    }

    method ArmTimerAt(id: TaskId, deadline: int)
      requires Valid()
      modifies this
      ensures Valid() && Value() == Apply(old(Value()), OpArmTimer(id, deadline))
      ensures Does(old(Value()), OpArmTimer(id, deadline), Value())
    {
      hide Inv, ArmTimer, Does;
      ApplyDoes(Value(), OpArmTimer(id, deadline));
      ApplyKeeps(Value(), OpArmTimer(id, deadline));
      Arm(id, deadline);
    }

    method ParkCurrentOnTimer(deadline: int)
      requires Valid()
      modifies this
      ensures Valid() && Value() == Apply(old(Value()), OpParkOnTimer(deadline))
      ensures Does(old(Value()), OpParkOnTimer(deadline), Value())
    {
      hide Inv, ArmTimer, Does;
      ApplyDoes(Value(), OpParkOnTimer(deadline));
      ApplyKeeps(Value(), OpParkOnTimer(deadline));
      if current.Some? {
        Arm(current.value, deadline);
      }
    }

    method DropTimer(armed: bool)
      modifies this`timers, this`liveTimers, this`staleTimers
      ensures Value() == Invalidate(old(Value()), armed)
    {
      if armed {
        liveTimers := liveTimers - 1;
        staleTimers := staleTimers + 1;
        Compact();
      }
    }

    // ----- References -----

    method Unreference(id: TaskId)
      requires Valid()
      modifies this
      ensures Valid() && Value() == Apply(old(Value()), OpUnreference(id))
      ensures Does(old(Value()), OpUnreference(id), Value())
    {
      hide Inv, Does;
      ApplyDoes(Value(), OpUnreference(id));
      ApplyKeeps(Value(), OpUnreference(id));
      if id in tasks && tasks[id].referenced {
        tasks := tasks[id := tasks[id].(referenced := false)];
        referencedTasks := referencedTasks - 1;
      }
    }

    method Reference(id: TaskId)
      requires Valid()
      modifies this
      ensures Valid() && Value() == Apply(old(Value()), OpReference(id))
      ensures Does(old(Value()), OpReference(id), Value())
    {
      hide Inv, Does;
      ApplyDoes(Value(), OpReference(id));
      ApplyKeeps(Value(), OpReference(id));
      if id in tasks && !tasks[id].referenced {
        tasks := tasks[id := tasks[id].(referenced := true)];
        referencedTasks := referencedTasks + 1;
      }
    }

    /** The loop is done: no live task is referenced. */
    predicate IsIdle()
      requires Valid()
      reads this
      ensures IsIdle() <==> forall id :: id in tasks ==> !tasks[id].referenced
    {
      assert forall id :: id in tasks && tasks[id].referenced ==> id in Referenced(tasks);
      assert referencedTasks == 0 ==> Referenced(tasks) == {};
      assert (forall id :: id in tasks ==> !tasks[id].referenced) ==> Referenced(tasks) == {};
      referencedTasks == 0
    }

    /** Something can still wake a parked task. */
    predicate CanWake()
      requires Valid()
      reads this
      ensures CanWake() <==>
              (exists id :: id in tasks && tasks[id].timerGeneration.Some?) || waiters != map[]
    {
      WakeSourceIff(Value());
      liveTimers != 0 || waiters != map[]
    }

    // ----- Waking -----

    method Unarm(id: TaskId)
      modifies this`waiters, this`registrations
      ensures Value() == Disarm(old(Value()), id)
    {
      waiters := waiters - {id};
      registrations := registrations - {id};
    }

    method DisarmTask(id: TaskId)
      requires Valid()
      modifies this
      ensures Valid() && Value() == Apply(old(Value()), OpDisarm(id))
      ensures Does(old(Value()), OpDisarm(id), Value())
    {
      hide Inv, Does;
      ApplyDoes(Value(), OpDisarm(id));
      ApplyKeeps(Value(), OpDisarm(id));
      Unarm(id);
    }

    method Cancel(id: TaskId)
      requires Valid()
      modifies this
      ensures Valid() && Value() == Apply(old(Value()), OpCancel(id))
      ensures Does(old(Value()), OpCancel(id), Value())
    {
      hide Inv, Invalidate, Does;
      ApplyDoes(Value(), OpCancel(id));
      ApplyKeeps(Value(), OpCancel(id));
      Unarm(id);
      if id in tasks {
        var task := tasks[id];
        tasks := tasks - {id};
        if task.referenced {
          referencedTasks := referencedTasks - 1;
        }
        DropTimer(task.timerGeneration.Some?);
      }
    }

    /** Re-queues a parked task to resume or throw, in front if asked. */
    method Wake(id: TaskId, activation: Activation<V>, front: bool)
      requires Valid()
      modifies this
      ensures Valid() && Value() == Apply(old(Value()), OpWake(id, activation, front))
      ensures Does(old(Value()), OpWake(id, activation, front), Value())
    {
      hide Inv, MarkQueued, Invalidate, Does;
      ApplyDoes(Value(), OpWake(id, activation, front));
      ApplyKeeps(Value(), OpWake(id, activation, front));
      if id !in tasks || tasks[id].queued || tasks[id].readyRequested {
        return;
      }
      var armed := tasks[id].timerGeneration.Some?;
      tasks := tasks[id := Woken(tasks[id], activation)];
      Unarm(id);
      DropTimer(armed);
      Mark(id, front);
    }

    method FireTask(id: TaskId)
      modifies this
      ensures Value() == Fire(old(Value()), id)
    {
      hide MarkQueued, Invalidate;
      if id in tasks && tasks[id].pending.None? {
        var armed := tasks[id].timerGeneration.Some?;
        tasks := tasks[id := Woken(tasks[id], Resume(idle))];
        DropTimer(armed);
      }
      Mark(id, false);
    }

    // ----- Polling -----

    method WakeReady(keys: seq<TaskId>)
      modifies this
      ensures Value() == WakeKeys(old(Value()), keys)
    {
      hide Fire;
      ghost var goal := WakeKeys(Value(), keys);
      for k := 0 to |keys|
        invariant WakeKeys(Value(), keys[k..]) == goal
      {
        assert keys[k..][0] == keys[k] && keys[k..][1..] == keys[k + 1..];
        if keys[k] in waiters {
          Unarm(keys[k]);
          FireTask(keys[k]);
        }
      }
      assert keys[|keys|..] == [];
    }

    method WakeExpiredTimers(now: int)
      modifies this
      ensures Value() == WakeExpired(old(Value()), now)
    {
      hide Fire;
      ghost var goal := WakeExpired(Value(), now);
      while timers != [] && timers[0].deadline <= now
        invariant WakeExpired(Value(), now) == goal
        decreases |timers|
      {
        var t := timers[0];
        if Live(tasks, t) {
          timers := timers[1..];
          tasks := tasks[t.id := tasks[t.id].(timerGeneration := None)];
          liveTimers := liveTimers - 1;
          FireTask(t.id);
        } else {
          timers := timers[1..];
          staleTimers := Saturating(staleTimers);
        }
      }
    }

    method PruneStaleHead()
      modifies this`timers, this`staleTimers
      ensures Value() == PruneHead(old(Value()))
    {
      ghost var goal := PruneHead(Value());
      while timers != [] && !Live(tasks, timers[0])
        invariant PruneHead(Value()) == goal
        decreases |timers|
      {
        timers := timers[1..];
        staleTimers := Saturating(staleTimers);
      }
    }

    /** Waits for readiness until the deadline `until`, or for ever; `readiness` is
        what the reactor reports, or nothing if waiting fails. */
    method PollReactor(readiness: Option<seq<TaskId>>, now: int) returns (ok: bool, until: Option<int>)
      requires Valid()
      modifies this
      ensures Valid() && Value() == Apply(old(Value()), OpPoll(readiness, now))
      ensures Does(old(Value()), OpPoll(readiness, now), Value())
      ensures ok <==> readiness.Some?
      ensures readiness.Some? ==> Polled(old(Value()), readiness.value, now, Value())
      ensures until == NextDeadline(old(Value()))
    {
      hide Inv, PruneHead, WakeKeys, WakeExpired, Polled, Does;
      ApplyDoes(Value(), OpPoll(readiness, now));
      ApplyKeeps(Value(), OpPoll(readiness, now));
      if readiness.Some? {
        PollIsExact(Value(), readiness.value, now);
      }
      PruneStaleHead();
      until := if timers == [] then None else Some(timers[0].deadline);
      if readiness.None? {
        return false, until;
      }
      WakeReady(readiness.value);
      WakeExpiredTimers(now);
      return true, until;
    }

    method PollReactorNonblocking(readiness: Option<seq<TaskId>>, now: int) returns (ok: bool)
      requires Valid()
      modifies this
      ensures Valid() && Value() == Apply(old(Value()), OpPollNonblocking(readiness, now))
      ensures Does(old(Value()), OpPollNonblocking(readiness, now), Value())
      ensures ok <==> readiness.Some? || old(waiters) == map[]
      ensures old(waiters) == map[] ==> Polled(old(Value()), [], now, Value())
      ensures old(waiters) != map[] && readiness.Some? ==> Polled(old(Value()), readiness.value, now, Value())
    {
      hide Inv, WakeKeys, WakeExpired, Polled, Does;
      ApplyDoes(Value(), OpPollNonblocking(readiness, now));
      ApplyKeeps(Value(), OpPollNonblocking(readiness, now));
      NonblockingIsExact(Value(), readiness, now);
      if waiters == map[] {
        WakeExpiredTimers(now);
        return true;
      }
      if readiness.None? {
        return false;
      }
      WakeReady(readiness.value);
      WakeExpiredTimers(now);
      return true;
    }

    // ----- Descriptors -----

    /** On success the key is registered as asked. On failure it is unchanged, or
        gone if another descriptor was deregistered for it. No other key moves. */
    method RegisterDescriptor(key: TaskId, fd: Descriptor, interest: Interest, reactor: Reactor) returns (ok: bool)
      modifies this`registrations
      ensures (Value(), ok) == Register(old(Value()), key, fd, interest, reactor)
      ensures ok ==> registrations == old(registrations)[key := (fd, interest)]
      ensures !ok ==> registrations == old(registrations) || registrations == old(registrations) - {key}
      ensures !ok && key in old(registrations) && key !in registrations ==>
                old(registrations)[key].0 != fd && reactor.deregistered && !reactor.registered
    {
      if key in registrations {
        var (registered, registeredInterest) := registrations[key];
        if registered == fd {
          if registeredInterest == interest && !reactor.requiresRearm {
            return true;
          }
          if !reactor.rearmed {
            return false;
          }
          registrations := registrations[key := (fd, interest)];
          return true;
        }
        if !reactor.deregistered {
          return false;
        }
      }
      registrations := registrations - {key};
      if !reactor.registered {
        return false;
      }
      registrations := registrations[key := (fd, interest)];
      return true;
    }

    method ArmDescriptorFor(id: TaskId, fd: Descriptor, interest: Interest, reactor: Reactor) returns (ok: bool)
      requires Valid()
      modifies this
      ensures Valid() && Value() == Apply(old(Value()), OpArmDescriptor(id, fd, interest, reactor))
      ensures Does(old(Value()), OpArmDescriptor(id, fd, interest, reactor), Value())
      ensures ok == Register(old(Value()), id, fd, interest, reactor).1
      ensures ok ==> waiters == old(waiters)[id := fd] && registrations == old(registrations)[id := (fd, interest)]
      ensures !ok ==> waiters == old(waiters)
    {
      hide Inv, Does;
      ApplyDoes(Value(), OpArmDescriptor(id, fd, interest, reactor));
      ApplyKeeps(Value(), OpArmDescriptor(id, fd, interest, reactor));
      ok := RegisterDescriptor(id, fd, interest, reactor);
      if ok {
        waiters := waiters[id := fd];
      }
    }

    method ParkCurrentOnDescriptor(fd: Descriptor, interest: Interest, reactor: Reactor) returns (ok: bool)
      requires Valid()
      modifies this
      ensures Valid() && Value() == Apply(old(Value()), OpParkOnDescriptor(fd, interest, reactor))
      ensures Does(old(Value()), OpParkOnDescriptor(fd, interest, reactor), Value())
      ensures current.None? ==> ok && Value() == old(Value())
      ensures current.Some? ==>
                && ok == Register(old(Value()), current.value, fd, interest, reactor).1
                && waiters == if ok then old(waiters)[current.value := fd] else old(waiters)
    {
      hide Inv, Does;
      ApplyDoes(Value(), OpParkOnDescriptor(fd, interest, reactor));
      ApplyKeeps(Value(), OpParkOnDescriptor(fd, interest, reactor));
      if current.None? {
        return true;
      }
      ok := RegisterDescriptor(current.value, fd, interest, reactor);
      if ok {
        waiters := waiters[current.value := fd];
      }
    }

    // ----- Activation -----

    method NextFrom(microtask: bool) returns (found: Option<ReadyActivation<H, V>>)
      modifies this
      ensures (Value(), found) == NextQueued(old(Value()), microtask)
    {
      ghost var goal := NextQueued(Value(), microtask);
      while (if microtask then microtasks else ready) != []
        invariant NextQueued(Value(), microtask) == goal
        decreases |microtasks| + |ready|
      {
        var id;
        if microtask {
          id, microtasks := microtasks[0], microtasks[1..];
        } else {
          id, ready := ready[0], ready[1..];
        }
        if id in tasks {
          var task := tasks[id].(queued := false);
          if !task.readyRequested {
            tasks := tasks[id := task];
          } else if task.pending.None? {
            tasks := tasks[id := task.(readyRequested := false)];
          } else {
            tasks := tasks[id := task.(readyRequested := false, pending := None)];
            current := Some(id);
            return Some(ReadyActivation(id, task.coroutine, task.pending.value));
          }
        }
      }
      return None;
    }

    method NextMicrotaskActivation() returns (found: Option<ReadyActivation<H, V>>)
      requires Valid()
      modifies this
      ensures Valid() && (Value(), found) == NextQueued(old(Value()), true)
      ensures Activates(old(Value()), true, Value(), found)
    {
      hide Inv, Activates;
      NextQueuedKeeps(Value(), true);
      ApplyKeeps(Value(), OpNextMicrotask);
      found := NextFrom(true);
    }

    method NextReadyActivation() returns (found: Option<ReadyActivation<H, V>>)
      requires Valid()
      modifies this
      ensures Valid() && (Value(), found) == NextQueued(old(Value()), false)
      ensures Activates(old(Value()), false, Value(), found)
    {
      hide Inv, Activates;
      NextQueuedKeeps(Value(), false);
      ApplyKeeps(Value(), OpNextReady);
      found := NextFrom(false);
    }

    /** The oldest queued microtask, or else the oldest ready task. */
    method NextActivation() returns (found: Option<ReadyActivation<H, V>>)
      requires Valid()
      modifies this
      ensures Valid() && (Value(), found) == Next(old(Value()))
      ensures found.None? <==> LiveQueue(old(Value())) == []
      ensures found.Some? ==> found.value.id == LiveQueue(old(Value()))[0]
      ensures ActivatesEither(old(Value()), Value(), found)
    {
      hide Inv, NextQueued, LiveQueue, ActivatesEither;
      NextActivatesInOrder(Value());
      NextDoes(Value());
      found := NextFrom(true);
      if found.None? {
        found := NextFrom(false);
      }
    }

    method ClearCurrent()
      requires Valid()
      modifies this
      ensures Valid() && Value() == Apply(old(Value()), OpClearCurrent)
      ensures Does(old(Value()), OpClearCurrent, Value())
    {
      hide Inv, Does;
      ApplyDoes(Value(), OpClearCurrent);
      ApplyKeeps(Value(), OpClearCurrent);
      current := None;
    }
  }

  method Retain<H, V>(tasks: map<TaskId, Task<H, V>>, timers: seq<Timer>) returns (retained: seq<Timer>)
    ensures retained == LiveOnly(tasks, timers)
  {
    retained := [];
    for k := 0 to |timers|
      invariant retained == LiveOnly(tasks, timers[..k])
    {
      LiveOnlyAppends(tasks, timers[..k], timers[k]);
      assert timers[..k + 1] == timers[..k] + [timers[k]];
      if Live(tasks, timers[k]) {
        retained := retained + [timers[k]];
      }
    }
    assert timers[..|timers|] == timers;
  }

  lemma {:induction false} LiveOnlyAppends<H, V>(tasks: map<TaskId, Task<H, V>>, timers: seq<Timer>, t: Timer)
    ensures LiveOnly(tasks, timers + [t]) == LiveOnly(tasks, timers) + if Live(tasks, t) then [t] else []
  {
    if timers == [] {
      assert (timers + [t])[1..] == [];
    } else {
      assert (timers + [t])[1..] == timers[1..] + [t];
      LiveOnlyAppends(tasks, timers[1..], t);
    }
  }
}
