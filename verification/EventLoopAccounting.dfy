/** The stale-timer counter: in runs that never re-arm a timer still set, the
    heap holds exactly the live and the stale timers, and compaction drops only
    entries that can never fire. */
module EventLoopAccounting {
  import opened Wrappers
  import opened EventLoop
  import opened EventLoopInvariants
  import opened EventLoopTimers

  // ----- Tidy states -----

  predicate SameKey(a: Timer, b: Timer) {
    a.id == b.id && a.generation == b.generation
  }

  /** No suspension has two entries. */
  ghost predicate Separate(timers: seq<Timer>) {
    forall i, j :: 0 <= i < j < |timers| ==> !SameKey(timers[i], timers[j])
  }

  /** An entry of the current generation belongs to a timer that is set. */
  ghost predicate NoneDormant<H, V>(tasks: map<TaskId, Task<H, V>>, timers: seq<Timer>) {
    forall t :: t in timers && t.id in tasks && t.generation == tasks[t.id].generation ==>
      tasks[t.id].timerGeneration.Some?
  }

  ghost predicate Tidy<H, V>(s: State<H, V>) {
    && Separate(s.timers)
    && NoneDormant(s.tasks, s.timers)
    && |s.timers| == s.liveTimers + s.staleTimers
  }

  lemma {:induction false} PushSeparate(timers: seq<Timer>, t: Timer)
    requires Separate(timers) && forall x :: x in timers ==> !SameKey(x, t)
    ensures Separate(Push(timers, t))
    ensures forall x :: x in Push(timers, t) <==> x == t || x in timers
  {
    if timers != [] && !AtMost(t, timers[0]) {
      PushSeparate(timers[1..], t);
      assert timers == [timers[0]] + timers[1..];
      var rest := Push(timers[1..], t);
      forall j | 0 <= j < |rest|
        ensures !SameKey(timers[0], rest[j])
      {
        assert rest[j] in rest;
      }
    } else {
      assert forall j :: 0 <= j < |timers| ==> timers[j] in timers;
    }
  }

  lemma {:induction false} LiveOnlySeparate<H, V>(tasks: map<TaskId, Task<H, V>>, timers: seq<Timer>)
    requires Separate(timers)
    ensures Separate(LiveOnly(tasks, timers))
    ensures forall x :: x in LiveOnly(tasks, timers) ==> x in timers && Live(tasks, x)
  {
    if timers != [] {
      LiveOnlySeparate(tasks, timers[1..]);
      assert timers == [timers[0]] + timers[1..];
      var rest := LiveOnly(tasks, timers[1..]);
      forall j | 0 <= j < |rest|
        ensures !SameKey(timers[0], rest[j])
      {
        assert rest[j] in rest;
      }
    }
  }

  /** In a tidy state there is exactly one live entry per set timer. */
  lemma LiveEntriesCounted<H, V>(s: State<H, V>)
    requires TimerShape(s) && Separate(s.timers)
    ensures |LiveOnly(s.tasks, s.timers)| == |Armed(s.tasks)|
  {
    var live := LiveOnly(s.tasks, s.timers);
    LiveOnlySeparate(s.tasks, s.timers);
    ArmedAreLive(s);
    forall i, j | 0 <= i < j < |live|
      ensures live[i].id != live[j].id
    {
      assert live[i] in live && live[j] in live;
      assert !SameKey(live[i], live[j]);
    }
    IdsAreFewer(live);
  }

  lemma CompactTidy<H, V>(s: State<H, V>)
    requires TimerInv(s) && Tidy(s)
    ensures Tidy(CompactTimers(s))
  {
    LiveEntriesCounted(s);
    LiveOnlySeparate(s.tasks, s.timers);
  }

  /** The tidy part of moving one timer from live to stale. */
  lemma InvalidateTidy<H, V>(s: State<H, V>, armed: bool)
    requires TimerShape(s) && Tidy(s) && s.staleTimers >= 0
    requires |Armed(s.tasks)| == if armed then s.liveTimers - 1 else s.liveTimers
    ensures Tidy(Invalidate(s, armed))
  {
    if armed {
      var moved := s.(liveTimers := s.liveTimers - 1, staleTimers := s.staleTimers + 1);
      assert forall t :: Known(s, t) ==> Known(moved, t);
      CompactTidy(moved);
    }
  }

  /** A state that differs only in what tidiness does not read. */
  lemma TidyTransfers<H, V>(s: State<H, V>, r: State<H, V>)
    requires Tidy(s) && r.timers == s.timers && r.liveTimers == s.liveTimers && r.staleTimers == s.staleTimers
    requires TimerShape(s)
    requires forall id :: id in r.tasks ==>
               id >= s.nextId
               || (id in s.tasks && r.tasks[id].generation == s.tasks[id].generation
                   && r.tasks[id].timerGeneration == s.tasks[id].timerGeneration)
    ensures Tidy(r)
  {
    forall t | t in r.timers && t.id in r.tasks && t.generation == r.tasks[t.id].generation
      ensures r.tasks[t.id].timerGeneration.Some?
    {
      assert Known(s, t);
    }
  }

  // ----- Each operation keeps states tidy -----

  lemma WakeTidy<H, V>(s: State<H, V>, id: TaskId, activation: Activation<V>)
    requires Inv(s) && Tidy(s) && id in s.tasks
    ensures var r := SetTask(s, id, Woken(s.tasks[id], activation));
            Tidy(Invalidate(r, s.tasks[id].timerGeneration.Some?))
  {
    hide Invalidate, QueueInv;
    var task := Woken(s.tasks[id], activation);
    var r := SetTask(s, id, task);
    ArmedUpdate(s.tasks, id, task);
    ArmedLoses(s, id);
    ShapeTransfers(s, r);
    forall t | t in r.timers && t.id in r.tasks && t.generation == r.tasks[t.id].generation
      ensures r.tasks[t.id].timerGeneration.Some?
    {
      assert Known(s, t);
    }
    InvalidateTidy(r, s.tasks[id].timerGeneration.Some?);
  }

  lemma MarkTidy<H, V>(s: State<H, V>, id: TaskId, front: bool)
    requires TimerShape(s) && Tidy(s)
    ensures Tidy(MarkQueued(s, id, front))
  {
    hide MarkQueued;
    MarkEffect(s, id, front);
    TidyTransfers(s, MarkQueued(s, id, front));
  }

  lemma EnqueueTidy<H, V>(s: State<H, V>, id: TaskId, activation: Activation<V>, front: bool)
    requires Inv(s) && Tidy(s)
    ensures Tidy(Enqueue(s, id, activation, front))
  {
    hide Inv, Tidy, Invalidate, MarkQueued;
    if id in s.tasks && !s.tasks[id].queued && !s.tasks[id].readyRequested {
      var d := Disarm(s, id);
      DisarmKeeps(s, id);
      TidySame(s, d);
      WakeTidy(d, id, activation);
      WakeKeeps(d, id, activation);
      var woken := SetTask(d, id, Woken(s.tasks[id], activation));
      assert woken == Disarm(SetTask(s, id, Woken(s.tasks[id], activation)), id);
      var r := Invalidate(woken, s.tasks[id].timerGeneration.Some?);
      InvShape(r);
      MarkTidy(r, id, front);
    }
  }

  lemma InvShape<H, V>(s: State<H, V>)
    requires Inv(s)
    ensures TimerShape(s)
  {
  }

  lemma TidySame<H, V>(s: State<H, V>, r: State<H, V>)
    requires Tidy(s) && r.timers == s.timers && r.tasks == s.tasks
    requires r.liveTimers == s.liveTimers && r.staleTimers == s.staleTimers
    ensures Tidy(r)
  {
  }

  lemma FireTidy<H, V>(s: State<H, V>, id: TaskId)
    requires Inv(s) && Tidy(s)
    ensures Tidy(Fire(s, id))
  {
    hide Inv, Tidy, Invalidate, MarkQueued;
    InvShape(s);
    if id in s.tasks && s.tasks[id].pending.None? {
      WakeTidy(s, id, Resume(s.idle));
      WakeKeeps(s, id, Resume(s.idle));
      var woken := SetTask(s, id, Woken(s.tasks[id], Resume(s.idle)));
      var r := Invalidate(woken, s.tasks[id].timerGeneration.Some?);
      InvShape(r);
      MarkTidy(r, id, false);
    } else {
      MarkTidy(s, id, false);
    }
  }

  lemma {:induction false} WakeKeysTidy<H, V>(s: State<H, V>, keys: seq<TaskId>)
    requires Inv(s) && Tidy(s)
    ensures Tidy(WakeKeys(s, keys))
    decreases |keys|
  {
    hide Inv, Tidy, Fire;
    if keys != [] {
      var d := Disarm(s, keys[0]);
      DisarmKeeps(s, keys[0]);
      TidySame(s, d);
      FireKeeps(d, keys[0]);
      FireTidy(d, keys[0]);
      WakeKeysTidy(WakeKey(s, keys[0]), keys[1..]);
    }
  }

  lemma PopStaleTidy<H, V>(s: State<H, V>)
    requires Inv(s) && Tidy(s) && s.timers != [] && !Live(s.tasks, s.timers[0])
    ensures Tidy(PopStale(s))
  {
    assert s.timers == [s.timers[0]] + s.timers[1..];
    LiveEntriesCounted(s);
    SomeNotLive(s.tasks, s.timers, s.timers[0]);
  }

  lemma PopLiveTidy<H, V>(s: State<H, V>)
    requires Inv(s) && Tidy(s) && s.timers != [] && Live(s.tasks, s.timers[0])
    ensures Tidy(PopLive(s))
  {
    var head, r := s.timers[0], PopLive(s);
    assert s.timers == [head] + s.timers[1..];
    forall t | t in r.timers && t.id in r.tasks && t.generation == r.tasks[t.id].generation
      ensures r.tasks[t.id].timerGeneration.Some?
    {
      var i :| 0 <= i < |s.timers[1..]| && s.timers[1..][i] == t;
      assert !SameKey(s.timers[0], s.timers[i + 1]);
    }
  }

  lemma {:induction false} WakeExpiredTidy<H, V>(s: State<H, V>, now: int)
    requires Inv(s) && Tidy(s)
    ensures Tidy(WakeExpired(s, now))
    decreases |s.timers|
  {
    hide Inv, Tidy, Fire, PopLive, PopStale;
    if s.timers != [] && s.timers[0].deadline <= now {
      if Live(s.tasks, s.timers[0]) {
        PopLiveTidy(s);
        PopLiveKeeps(s);
        FireTidy(PopLive(s), s.timers[0].id);
      } else {
        PopStaleTidy(s);
      }
      PopExpiredKeeps(s);
      WakeExpiredTidy(PopExpired(s), now);
    }
  }

  lemma {:induction false} PruneTidy<H, V>(s: State<H, V>)
    requires Inv(s) && Tidy(s)
    ensures Tidy(PruneHead(s))
    decreases |s.timers|
  {
    hide Inv, Tidy;
    if s.timers != [] && !Live(s.tasks, s.timers[0]) {
      PopStaleTidy(s);
      PopStaleKeeps(s);
      PruneTidy(PopStale(s));
    }
  }

  lemma HandleTidy<H, V>(s: State<H, V>, readiness: Option<seq<TaskId>>, now: int)
    requires Inv(s) && Tidy(s)
    ensures Tidy(HandleReadiness(s, readiness, now))
  {
    hide Inv, Tidy, WakeKeys, WakeExpired;
    if readiness.Some? {
      WakeKeysTidy(s, readiness.value);
      WakeKeysKeep(s, readiness.value);
      WakeExpiredTidy(WakeKeys(s, readiness.value), now);
    }
  }

  lemma ArmTidy<H, V>(s: State<H, V>, id: TaskId, deadline: int)
    requires Inv(s) && Tidy(s) && (id in s.tasks ==> s.tasks[id].timerGeneration.None?)
    ensures Tidy(ArmTimer(s, id, deadline))
  {
    if id in s.tasks {
      var task := s.tasks[id].(timerGeneration := Some(s.tasks[id].generation));
      var timer := Timer(deadline, id, task.generation);
      var pushed := SetTask(s, id, task).(timers := Push(s.timers, timer), liveTimers := s.liveTimers + 1);
      PushSeparate(s.timers, timer);
      PushKeepsShape(s, id, task, timer, pushed);
      ArmedUpdate(s.tasks, id, task);
      ArmedGains(s, id);
      ArmedPushTidy(pushed);
      assert ArmTimer(s, id, deadline) == CompactTimers(pushed);
    }
  }

  lemma ArmedPushTidy<H, V>(pushed: State<H, V>)
    requires TimerShape(pushed) && Separate(pushed.timers) && NoneDormant(pushed.tasks, pushed.timers)
    requires |pushed.timers| == pushed.liveTimers + pushed.staleTimers && pushed.staleTimers >= 0
    requires pushed.liveTimers == |Armed(pushed.tasks)|
    ensures Tidy(CompactTimers(pushed))
  {
    CompactTidy(pushed);
  }

  lemma RemoveTidy<H, V>(s: State<H, V>, id: TaskId)
    requires Inv(s) && Tidy(s)
    ensures Tidy(RemoveTask(s, id))
  {
    hide Invalidate;
    if id in s.tasks {
      var removed := s.(
        tasks := s.tasks - {id},
        referencedTasks := if s.tasks[id].referenced then s.referencedTasks - 1 else s.referencedTasks);
      assert Armed(removed.tasks) == Armed(s.tasks) - {id};
      ArmedLoses(s, id);
      ShapeTransfers(s, removed);
      InvalidateTidy(removed, s.tasks[id].timerGeneration.Some?);
    }
  }

  lemma {:induction false} NextQueuedTidy<H, V>(s: State<H, V>, microtask: bool)
    requires Inv(s) && Tidy(s)
    ensures Tidy(NextQueued(s, microtask).0)
    decreases |QueueOf(s, microtask)|
  {
    var queue := QueueOf(s, microtask);
    if queue != [] {
      if queue[0] in s.tasks {
        PopActiveKeeps(s, microtask);
        TidyTransfers(s, NextQueued(s, microtask).0);
      } else {
        PopDeadKeeps(s, microtask);
        TidySame(s, PopQueue(s, microtask));
        NextQueuedTidy(PopQueue(s, microtask), microtask);
      }
    }
  }

  // ----- Whole runs -----

  /** The operation arms a timer for a task whose timer is still set. */
  predicate Rearms<H, V>(s: State<H, V>, op: Op<H, V>) {
    match op
    case OpArmTimer(id, _) => id in s.tasks && s.tasks[id].timerGeneration.Some?
    case OpParkOnTimer(_) =>
      s.current.Some? && s.current.value in s.tasks && s.tasks[s.current.value].timerGeneration.Some?
    case _ => false
  }

  predicate NeverRearms<H, V>(s: State<H, V>, ops: seq<Op<H, V>>)
    decreases |ops|
  {
    ops == [] || (!Rearms(s, ops[0]) && NeverRearms(Apply(s, ops[0]), ops[1..]))
  }

  lemma TaskOpTidy<H, V>(s: State<H, V>, op: Op<H, V>)
    requires Inv(s) && Tidy(s) && !Rearms(s, op)
    requires || op.OpSpawn? || op.OpSpawnArmed? || op.OpArmTimer? || op.OpParkOnTimer?
             || op.OpUnreference? || op.OpReference? || op.OpCancel? || op.OpWake?
    ensures Tidy(Apply(s, op))
  {
    hide Inv, Tidy, ArmTimer, RemoveTask, Enqueue, MarkQueued;
    InvShape(s);
    match op {
      case OpSpawn(coroutine, arguments, microtask) =>
        InsertKeeps(s, coroutine, arguments, microtask);
        TidyTransfers(s, InsertTask(s, coroutine, arguments, microtask));
        InvShape(InsertTask(s, coroutine, arguments, microtask));
        MarkTidy(InsertTask(s, coroutine, arguments, microtask), s.nextId, false);
      case OpSpawnArmed(coroutine, arguments) => TidyTransfers(s, Apply(s, op));
      case OpArmTimer(id, deadline) => ArmTidy(s, id, deadline);
      case OpParkOnTimer(deadline) => if s.current.Some? { ArmTidy(s, s.current.value, deadline); }
      case OpUnreference(id) => TidyTransfers(s, Apply(s, op));
      case OpReference(id) => TidyTransfers(s, Apply(s, op));
      case OpCancel(id) =>
        DisarmKeeps(s, id);
        TidySame(s, Disarm(s, id));
        RemoveTidy(Disarm(s, id), id);
      case OpWake(id, activation, front) => EnqueueTidy(s, id, activation, front);
    }
  }

  lemma ApplyTidy<H, V>(s: State<H, V>, op: Op<H, V>)
    requires Inv(s) && Tidy(s) && !Rearms(s, op)
    ensures Tidy(Apply(s, op))
  {
    hide Inv, Tidy, PruneHead, HandleReadiness, WakeExpired, NextQueued;
    hide Spawn, InsertTask, ArmTimer, Cancel, Enqueue, Reference, Unreference;
    if || op.OpSpawn? || op.OpSpawnArmed? || op.OpArmTimer? || op.OpParkOnTimer?
       || op.OpUnreference? || op.OpReference? || op.OpCancel? || op.OpWake? {
      TaskOpTidy(s, op);
      return;
    }
    match op {
      case OpPoll(readiness, now) =>
        PruneTidy(s);
        PruneKeeps(s);
        HandleTidy(PruneHead(s), readiness, now);
      case OpPollNonblocking(readiness, now) =>
        WakeExpiredTidy(s, now);
        HandleTidy(s, readiness, now);
      case OpNextMicrotask => NextQueuedTidy(s, true);
      case OpNextReady => NextQueuedTidy(s, false);
      case OpNext =>
        NextQueuedTidy(s, true);
        NextQueuedKeeps(s, true);
        NextQueuedTidy(NextQueued(s, true).0, false);
      case _ => TidySame(s, Apply(s, op));
    }
  }

  lemma {:induction false} RunTidy<H, V>(s: State<H, V>, ops: seq<Op<H, V>>)
    requires Inv(s) && Tidy(s) && NeverRearms(s, ops)
    ensures Tidy(Run(s, ops))
    decreases |ops|
  {
    hide Inv, Tidy, Apply;
    if ops != [] {
      ApplyTidy(s, ops[0]);
      ApplyKeeps(s, ops[0]);
      RunTidy(Apply(s, ops[0]), ops[1..]);
    }
  }

  /** In every run that never re-arms a timer still set, the heap holds exactly
      the live and the stale timers. */
  lemma HeapIsAccountedFor<H, V>(idle: V, ops: seq<Op<H, V>>)
    requires NeverRearms(Initial<H, V>(idle), ops)
    ensures var s := Run(Initial<H, V>(idle), ops);
            Tidy(s) && |s.timers| == s.liveTimers + s.staleTimers
  {
    var s := Initial<H, V>(idle);
    assert Armed(s.tasks) == {} && Referenced(s.tasks) == {};
    RunTidy(s, ops);
  }

  /** What compaction drops from a tidy heap never fires in any continuation. */
  lemma DroppedNeverFires<H, V>(s: State<H, V>, t: Timer, ops: seq<Op<H, V>>)
    requires Inv(s) && Tidy(s) && t in s.timers && !Live(s.tasks, t)
    ensures !Live(Run(s, ops).tasks, t)
  {
    hide Run;
    assert Known(s, t);
    RunAges(s, ops);
  }

  /** After a compaction the counters add up to the heap exactly when no task
      has two live entries. */
  lemma CompactionAddsUp<H, V>(s: State<H, V>)
    requires TimerInv(s)
    requires s.staleTimers >= TIMER_COMPACTION_THRESHOLD && s.staleTimers >= (|s.timers| + 1) / 2
    ensures var r := CompactTimers(s);
            |r.timers| == r.liveTimers + r.staleTimers <==>
            forall i, j :: 0 <= i < j < |r.timers| ==> r.timers[i].id != r.timers[j].id
  {
    var live := LiveOnly(s.tasks, s.timers);
    assert CompactTimers(s).timers == live;
    ArmedAreLive(s);
    IdsAreFewer(live);
    if i, j :| 0 <= i < j < |live| && live[i].id == live[j].id {
      TwiceIsMore(live, i, j);
    }
  }

  lemma {:induction false} TwiceIsMore(timers: seq<Timer>, i: nat, j: nat)
    requires i < j < |timers| && timers[i].id == timers[j].id
    ensures |Ids(timers)| < |timers|
  {
    var rest := timers[..j] + timers[j + 1..];
    assert Ids(rest) == Ids(timers) by {
      forall t | t in timers
        ensures t.id in Ids(rest)
      {
        var k :| 0 <= k < |timers| && timers[k] == t;
        if k == j {
          assert rest[i] == timers[i] && rest[i] in rest;
        } else {
          assert rest[if k < j then k else k - 1] == t;
        }
      }
      assert forall t :: t in rest ==> t in timers;
    }
    IdsAreFewer(rest);
  }

  /** After the run the entry is in the heap and its task accepts it. */
  ghost predicate FiresAfter<H, V>(s: State<H, V>, ops: seq<Op<H, V>>, t: Timer) {
    t in Run(s, ops).timers && Live(Run(s, ops).tasks, t)
  }

  /** Such an entry does fire: an expiry pass at its deadline resumes its task. */
  lemma RevivedFires<H, V>(s: State<H, V>, ops: seq<Op<H, V>>, t: Timer)
    requires Inv(s) && FiresAfter(s, ops, t)
    ensures var r := Run(s, ops);
            && Due(r, t.deadline, t.id) && t.id in r.tasks
            && t.id in WakeExpired(r, t.deadline).tasks
            && WakeExpired(r, t.deadline).tasks[t.id] == Fired(r.tasks[t.id], r.idle)
  {
    RunKeeps(s, ops);
    hide Run, WakeExpired, Fired;
    ExpiryIsExact(Run(s, ops), t.deadline, t.id);
  }

  /** Exactly which entries compaction may drop: an entry that is not live can
      fire again in some continuation if and only if its task is still in the
      generation it was armed in. */
  lemma RevivalCondition<H, V>(s: State<H, V>, t: Timer)
    requires Inv(s) && t in s.timers && !Live(s.tasks, t)
    ensures (exists ops: seq<Op<H, V>> :: FiresAfter(s, ops, t)) <==>
            t.id in s.tasks && t.generation == s.tasks[t.id].generation
  {
    hide Run;
    assert Known(s, t);
    forall ops: seq<Op<H, V>> | FiresAfter(s, ops, t)
      ensures t.id in s.tasks && t.generation == s.tasks[t.id].generation
    {
      RunAges(s, ops);
    }
    if t.id in s.tasks && t.generation == s.tasks[t.id].generation {
      ArmingRuns(s, t, 0);
    }
  }

  lemma ArmingRuns<H, V>(s: State<H, V>, t: Timer, deadline: int)
    requires Inv(s) && t in s.timers && t.id in s.tasks && t.generation == s.tasks[t.id].generation
    ensures FiresAfter(s, [OpArmTimer(t.id, deadline)], t)
  {
    hide ArmTimer;
    var ops: seq<Op<H, V>> := [OpArmTimer(t.id, deadline)];
    ArmedAgain(s, t, deadline);
    assert Run(s, ops) == Run(ArmTimer(s, t.id, deadline), ops[1..]) == ArmTimer(s, t.id, deadline);
  }

  /** Arming the task again keeps the entry, even if it compacts, and revives it. */
  lemma ArmedAgain<H, V>(s: State<H, V>, t: Timer, deadline: int)
    requires Inv(s) && t in s.timers && t.id in s.tasks && t.generation == s.tasks[t.id].generation
    ensures t in ArmTimer(s, t.id, deadline).timers && Live(ArmTimer(s, t.id, deadline).tasks, t)
  {
    var timers := Push(s.timers, Timer(deadline, t.id, t.generation));
    var r := ArmTimer(s, t.id, deadline);
    PushKeeps(s.timers, Timer(deadline, t.id, t.generation));
    LiveOnlyKeeps(r.tasks, timers);
    assert r.timers == timers || r.timers == LiveOnly(r.tasks, timers);
  }

  /** Such entries exist once a timer is armed twice: when one of its entries
      fires while an activation is pending, the other stays behind. */
  lemma RearmingLeavesOne<H, V>(s: State<H, V>, t: Timer)
    requires s.timers != [] && Live(s.tasks, s.timers[0]) && s.tasks[s.timers[0].id].pending.Some?
    requires t in s.timers[1..] && SameKey(t, s.timers[0])
    ensures var r := PopExpired(s);
            t in r.timers && !Live(r.tasks, t) && t.id in r.tasks && t.generation == r.tasks[t.id].generation
  {
    hide PopExpired;
    PopExpiredIs(s);
  }

  // ----- A run that gets there -----

  /** A task is armed for 1 and again for 2 before it first runs, and the loop
      turns at 1. */
  function Rearming<H, V>(coroutine: H): seq<Op<H, V>> {
    [OpSpawnArmed(coroutine, []), OpArmTimer(0, 1), OpArmTimer(0, 2), OpPollNonblocking(None, 1)]
  }

  function ArmedTwice<H, V>(idle: V, coroutine: H): State<H, V> {
    var task := Task(coroutine, Some(Start([])), false, false, true, false, 0, Some(0));
    State(map[0 := task], 1, [], [], map[], map[], [Timer(1, 0, 0), Timer(2, 0, 0)], 1, 1, None, 1, idle)
  }

  lemma SpawnedAndArmed<H, V>(idle: V, coroutine: H)
    ensures ArmTimer(ArmTimer(InsertTask(Initial<H, V>(idle), coroutine, [], false), 0, 1), 0, 2)
         == ArmedTwice(idle, coroutine)
  {
    var s := InsertTask(Initial<H, V>(idle), coroutine, [], false);
    var once := ArmTimer(s, 0, 1);
    assert once.timers == [Timer(1, 0, 0)] && once.tasks.Keys == {0};
    var first: seq<Timer> := [Timer(1, 0, 0)];
    assert first[1..] == [] && Push(first, Timer(2, 0, 0)) == [Timer(1, 0, 0), Timer(2, 0, 0)];
    var twice := ArmTimer(once, 0, 2);
    assert twice.timers == [Timer(1, 0, 0), Timer(2, 0, 0)];
    assert twice.tasks == ArmedTwice(idle, coroutine).tasks;
  }

  lemma FirstEntryFires<H, V>(idle: V, coroutine: H)
    ensures var r := WakeExpired(ArmedTwice(idle, coroutine), 1);
            && r.timers == [Timer(2, 0, 0)] && r.liveTimers == 0 && r.staleTimers == 1 && r.tasks.Keys == {0}
            && r.tasks[0].timerGeneration == None && r.tasks[0].generation == 0
  {
    var s := ArmedTwice(idle, coroutine);
    assert Live(s.tasks, s.timers[0]) && s.tasks[0].pending.Some?;
    PopExpiredIs(s);
    var r := PopExpired(s);
    assert r == MarkQueued(PopLive(s), 0, false);
    assert WakeExpired(s, 1) == WakeExpired(r, 1) == r;
  }

  /** The run leaves an entry that is counted as stale although its task is still
      in the generation it was armed in, and arming the task once more, for
      later, lets that entry fire at 2. */
  lemma RearmingRevives<H, V>(idle: V, coroutine: H)
    ensures var s := Run(Initial<H, V>(idle), Rearming(coroutine));
            && Inv(s) && Timer(2, 0, 0) in s.timers && !Live(s.tasks, Timer(2, 0, 0))
            && |s.timers| == 1 && s.liveTimers == 0 && s.staleTimers == 1 && !NoneDormant(s.tasks, s.timers)
            && FiresAfter(s, [OpArmTimer(0, 9)], Timer(2, 0, 0))
            && Due(Run(s, [OpArmTimer(0, 9)]), 2, 0)
  {
    RearmedState(idle, coroutine);
    ReachableStates<H, V>(idle, Rearming(coroutine));
    hide Run, Inv, Due;
    var s := Run(Initial<H, V>(idle), Rearming(coroutine));
    ArmingRuns(s, Timer(2, 0, 0), 9);
    RevivedFires(s, [OpArmTimer(0, 9)], Timer(2, 0, 0));
  }

  lemma RearmedState<H, V>(idle: V, coroutine: H)
    ensures var s := Run(Initial<H, V>(idle), Rearming(coroutine));
            && s.timers == [Timer(2, 0, 0)] && s.liveTimers == 0 && s.staleTimers == 1 && s.tasks.Keys == {0}
            && s.tasks[0].timerGeneration == None && s.tasks[0].generation == 0
  {
    SpawnedAndArmed<H, V>(idle, coroutine);
    FirstEntryFires<H, V>(idle, coroutine);
    RunsAre(Initial<H, V>(idle), Rearming(coroutine));
    hide InsertTask, ArmTimer, WakeExpired, Run, Initial;
  }

  lemma RunsAre<H, V>(s: State<H, V>, ops: seq<Op<H, V>>)
    requires |ops| == 4
    ensures Run(s, ops) == Apply(Apply(Apply(Apply(s, ops[0]), ops[1]), ops[2]), ops[3])
  {
    hide Apply;
    var a := Apply(s, ops[0]);
    var b := Apply(a, ops[1]);
    var c := Apply(b, ops[2]);
    assert ops[1..][1..] == ops[2..] && ops[2..][1..] == ops[3..] && ops[3..][1..] == [];
    assert Run(s, ops) == Run(a, ops[1..]) == Run(b, ops[2..]) == Run(c, ops[3..]);
    assert Run(c, ops[3..]) == Run(Apply(c, ops[3]), []);
  }
}
