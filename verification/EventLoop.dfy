/** The scheduler's bookkeeping as a value, with one function per operation.
    The reactor's answers and the clock are arguments. Task ids and generations
    are unbounded; the timer heap is given by its contents in heap order. */
module EventLoop {
  import opened Wrappers

  const TIMER_COMPACTION_THRESHOLD := 1024

  type TaskId = nat
  type Descriptor = nat
  datatype Interest = Readable | Writable

  datatype Activation<+V> = Start(arguments: seq<V>) | Resume(value: V) | Throw(error: V)

  datatype Task<+H, +V> = Task(
    coroutine: H,
    pending: Option<Activation<V>>,
    queued: bool,
    microtask: bool,
    referenced: bool,
    readyRequested: bool,
    generation: nat,
    timerGeneration: Option<nat>)

  datatype Timer = Timer(deadline: int, id: TaskId, generation: nat)

  datatype ReadyActivation<+H, +V> = ReadyActivation(id: TaskId, coroutine: H, activation: Activation<V>)

  datatype State<+H, +V> = State(
    tasks: map<TaskId, Task<H, V>>,
    referencedTasks: int,
    ready: seq<TaskId>,
    microtasks: seq<TaskId>,
    waiters: map<TaskId, Descriptor>,
    registrations: map<TaskId, (Descriptor, Interest)>,
    timers: seq<Timer>,
    liveTimers: int,
    staleTimers: int,
    current: Option<TaskId>,
    nextId: nat,
    idle: V)

  function Initial<H, V>(idle: V): State<H, V> {
    State(map[], 0, [], [], map[], map[], [], 0, 0, None, 0, idle)
  }

  // ----- The timer heap -----

  /** Heap order: by deadline, then task, then generation. */
  predicate AtMost(a: Timer, b: Timer) {
    || a.deadline < b.deadline
    || (a.deadline == b.deadline && a.id < b.id)
    || (a.deadline == b.deadline && a.id == b.id && a.generation <= b.generation)
  }

  function Push(timers: seq<Timer>, t: Timer): (r: seq<Timer>)
    ensures |r| == |timers| + 1
  {
    if timers == [] || AtMost(t, timers[0]) then [t] + timers
    else [timers[0]] + Push(timers[1..], t)
  }

  /** The entry belongs to the task's current suspension. */
  predicate Live<H, V>(tasks: map<TaskId, Task<H, V>>, t: Timer) {
    && t.id in tasks
    && tasks[t.id].generation == t.generation
    && tasks[t.id].timerGeneration == Some(t.generation)
  }

  function LiveOnly<H, V>(tasks: map<TaskId, Task<H, V>>, timers: seq<Timer>): (r: seq<Timer>)
    ensures |r| <= |timers|
  {
    if timers == [] then []
    else if Live(tasks, timers[0]) then [timers[0]] + LiveOnly(tasks, timers[1..])
    else LiveOnly(tasks, timers[1..])
  }

  function CompactTimers<H, V>(s: State<H, V>): (r: State<H, V>)
    ensures |r.timers| <= |s.timers|
    ensures r == s.(timers := r.timers, staleTimers := r.staleTimers)
  {
    if s.staleTimers < TIMER_COMPACTION_THRESHOLD || s.staleTimers < (|s.timers| + 1) / 2 then s
    else s.(timers := LiveOnly(s.tasks, s.timers), staleTimers := 0)
  }

  /** Accounts for a timer that stopped being live, if there was one. */
  function Invalidate<H, V>(s: State<H, V>, armed: bool): (r: State<H, V>)
    ensures |r.timers| <= |s.timers|
    ensures r == s.(timers := r.timers, liveTimers := r.liveTimers, staleTimers := r.staleTimers)
  {
    if armed then CompactTimers(s.(liveTimers := s.liveTimers - 1, staleTimers := s.staleTimers + 1)) else s
  }

  function Saturating(n: int): int {
    if n > 0 then n - 1 else 0
  }

  // ----- Tasks and queues -----

  function SetTask<H, V>(s: State<H, V>, id: TaskId, task: Task<H, V>): State<H, V> {
    s.(tasks := s.tasks[id := task])
  }

  function InsertTask<H, V>(s: State<H, V>, coroutine: H, arguments: seq<V>, microtask: bool): State<H, V> {
    var task := Task(coroutine, Some(Start(arguments)), false, microtask, true, false, 0, None);
    SetTask(s, s.nextId, task).(nextId := s.nextId + 1, referencedTasks := s.referencedTasks + 1)
  }

  function PushQueue<H, V>(s: State<H, V>, id: TaskId, microtask: bool, front: bool): State<H, V> {
    if microtask then s.(microtasks := if front then [id] + s.microtasks else s.microtasks + [id])
    else s.(ready := if front then [id] + s.ready else s.ready + [id])
  }

  function MarkQueued<H, V>(s: State<H, V>, id: TaskId, front: bool): State<H, V> {
    if id !in s.tasks then s
    else
      var task := s.tasks[id];
      var marked := SetTask(s, id, task.(readyRequested := true, queued := true));
      if task.queued then marked else PushQueue(marked, id, task.microtask, front)
  }

  function Spawn<H, V>(s: State<H, V>, coroutine: H, arguments: seq<V>, microtask: bool): State<H, V> {
    MarkQueued(InsertTask(s, coroutine, arguments, microtask), s.nextId, false)
  }

  function ArmTimer<H, V>(s: State<H, V>, id: TaskId, deadline: int): State<H, V> {
    if id !in s.tasks then s
    else
      var task := s.tasks[id];
      var rearmed := task.timerGeneration.Some?;
      var armed := SetTask(s, id, task.(timerGeneration := Some(task.generation)));
      CompactTimers(armed.(
        timers := Push(s.timers, Timer(deadline, id, task.generation)),
        liveTimers := if rearmed then s.liveTimers else s.liveTimers + 1,
        staleTimers := if rearmed then s.staleTimers + 1 else s.staleTimers))
  }

  function Unreference<H, V>(s: State<H, V>, id: TaskId): State<H, V> {
    if id in s.tasks && s.tasks[id].referenced
    then SetTask(s, id, s.tasks[id].(referenced := false)).(referencedTasks := s.referencedTasks - 1)
    else s
  }

  function Reference<H, V>(s: State<H, V>, id: TaskId): State<H, V> {
    if id in s.tasks && !s.tasks[id].referenced
    then SetTask(s, id, s.tasks[id].(referenced := true)).(referencedTasks := s.referencedTasks + 1)
    else s
  }

  function Disarm<H, V>(s: State<H, V>, id: TaskId): State<H, V> {
    s.(waiters := s.waiters - {id}, registrations := s.registrations - {id})
  }

  function RemoveTask<H, V>(s: State<H, V>, id: TaskId): State<H, V> {
    if id !in s.tasks then s
    else
      var task := s.tasks[id];
      var removed := s.(
        tasks := s.tasks - {id},
        referencedTasks := if task.referenced then s.referencedTasks - 1 else s.referencedTasks);
      Invalidate(removed, task.timerGeneration.Some?)
  }

  /** Finishing and cancelling are the same two steps. */
  function Cancel<H, V>(s: State<H, V>, id: TaskId): State<H, V> {
    RemoveTask(Disarm(s, id), id)
  }

  function Enqueue<H, V>(s: State<H, V>, id: TaskId, activation: Activation<V>, front: bool): State<H, V> {
    if id !in s.tasks || s.tasks[id].queued || s.tasks[id].readyRequested then s
    else
      var task := s.tasks[id];
      var woken := SetTask(s, id, Woken(task, activation));
      MarkQueued(Invalidate(Disarm(woken, id), task.timerGeneration.Some?), id, front)
  }

  /** A wake replaces the activation and moves to the next generation. */
  function Woken<H, V>(task: Task<H, V>, activation: Activation<V>): Task<H, V> {
    task.(pending := Some(activation), generation := task.generation + 1, timerGeneration := None)
  }

  function Fire<H, V>(s: State<H, V>, id: TaskId): (r: State<H, V>)
    ensures |r.timers| <= |s.timers|
  {
    if id in s.tasks && s.tasks[id].pending.None? then
      var task := s.tasks[id];
      var woken := SetTask(s, id, Woken(task, Resume(s.idle)));
      MarkQueued(Invalidate(woken, task.timerGeneration.Some?), id, false)
    else MarkQueued(s, id, false)
  }

  // ----- Readiness and timers -----

  function WakeKey<H, V>(s: State<H, V>, key: TaskId): State<H, V> {
    if key in s.waiters then Fire(Disarm(s, key), key) else s
  }

  function WakeKeys<H, V>(s: State<H, V>, keys: seq<TaskId>): State<H, V>
    decreases |keys|
  {
    if keys == [] then s else WakeKeys(WakeKey(s, keys[0]), keys[1..])
  }

  /** Takes a live timer off the heap and unsets it in its task. */
  function PopLive<H, V>(s: State<H, V>): State<H, V>
    requires s.timers != [] && Live(s.tasks, s.timers[0])
  {
    var id := s.timers[0].id;
    s.(timers := s.timers[1..],
       tasks := s.tasks[id := s.tasks[id].(timerGeneration := None)],
       liveTimers := s.liveTimers - 1)
  }

  function PopStale<H, V>(s: State<H, V>): State<H, V>
    requires s.timers != []
  {
    s.(timers := s.timers[1..], staleTimers := Saturating(s.staleTimers))
  }

  /** Takes the first timer off the heap and, if it is live, fires its task. */
  function PopExpired<H, V>(s: State<H, V>): (r: State<H, V>)
    requires s.timers != []
    ensures |r.timers| < |s.timers|
  {
    if Live(s.tasks, s.timers[0]) then Fire(PopLive(s), s.timers[0].id) else PopStale(s)
  }

  function WakeExpired<H, V>(s: State<H, V>, now: int): State<H, V>
    decreases |s.timers|
  {
    if s.timers == [] || s.timers[0].deadline > now then s else WakeExpired(PopExpired(s), now)
  }

  /** Drops timers from the head of the heap until a live one is there. */
  function PruneHead<H, V>(s: State<H, V>): State<H, V>
    decreases |s.timers|
  {
    if s.timers == [] || Live(s.tasks, s.timers[0]) then s
    else PruneHead(PopStale(s))
  }

  /** The deadline the loop may sleep until. */
  function NextDeadline<H, V>(s: State<H, V>): Option<int> {
    var timers := PruneHead(s).timers;
    if timers == [] then None else Some(timers[0].deadline)
  }

  function HandleReadiness<H, V>(s: State<H, V>, readiness: Option<seq<TaskId>>, now: int): State<H, V> {
    match readiness
    case None => s
    case Some(keys) => WakeExpired(WakeKeys(s, keys), now)
  }

  /** Blocks until the next deadline; no readiness when waiting fails. */
  function Poll<H, V>(s: State<H, V>, readiness: Option<seq<TaskId>>, now: int): State<H, V> {
    HandleReadiness(PruneHead(s), readiness, now)
  }

  function PollNonblocking<H, V>(s: State<H, V>, readiness: Option<seq<TaskId>>, now: int): State<H, V> {
    if s.waiters == map[] then WakeExpired(s, now) else HandleReadiness(s, readiness, now)
  }

  predicate HasWakeSource<H, V>(s: State<H, V>) {
    s.liveTimers != 0 || s.waiters != map[]
  }

  // ----- Descriptors -----

  /** What the operating system answers while registering. */
  datatype Reactor = Reactor(requiresRearm: bool, rearmed: bool, deregistered: bool, registered: bool)

  function Register<H, V>(s: State<H, V>, key: TaskId, fd: Descriptor, interest: Interest, reactor: Reactor)
    : (State<H, V>, bool)
  {
    if key in s.registrations && s.registrations[key].0 == fd then
      if s.registrations[key].1 == interest && !reactor.requiresRearm then (s, true)
      else if reactor.rearmed then (s.(registrations := s.registrations[key := (fd, interest)]), true)
      else (s, false)
    else if key in s.registrations && !reactor.deregistered then (s, false)
    else
      var freed := s.(registrations := s.registrations - {key});
      if reactor.registered then (freed.(registrations := freed.registrations[key := (fd, interest)]), true)
      else (freed, false)
  }

  function ArmDescriptor<H, V>(s: State<H, V>, id: TaskId, fd: Descriptor, interest: Interest, reactor: Reactor)
    : State<H, V>
  {
    var (registered, ok) := Register(s, id, fd, interest, reactor);
    if ok then registered.(waiters := registered.waiters[id := fd]) else registered
  }

  // ----- Activation -----

  function QueueOf<H, V>(s: State<H, V>, microtask: bool): seq<TaskId> {
    if microtask then s.microtasks else s.ready
  }

  function PopQueue<H, V>(s: State<H, V>, microtask: bool): State<H, V>
    requires QueueOf(s, microtask) != []
  {
    if microtask then s.(microtasks := s.microtasks[1..]) else s.(ready := s.ready[1..])
  }

  function Activated<H, V>(task: Task<H, V>): Task<H, V> {
    task.(queued := false, readyRequested := false, pending := None)
  }

  /** The next activation from one queue: skips tasks that are gone, were not
      asked to run, or have nothing pending. */
  function NextQueued<H, V>(s: State<H, V>, microtask: bool): (State<H, V>, Option<ReadyActivation<H, V>>)
    decreases |s.microtasks| + |s.ready|
  {
    if QueueOf(s, microtask) == [] then (s, None)
    else
      var id := QueueOf(s, microtask)[0];
      var popped := PopQueue(s, microtask);
      if id !in s.tasks then NextQueued(popped, microtask)
      else
        var task := s.tasks[id].(queued := false);
        if !task.readyRequested then NextQueued(SetTask(popped, id, task), microtask)
        else
          var task' := task.(readyRequested := false);
          if task'.pending.None? then NextQueued(SetTask(popped, id, task'), microtask)
          else
            var activated := SetTask(popped, id, Activated(task)).(current := Some(id));
            (activated, Some(ReadyActivation(id, task.coroutine, task'.pending.value)))
  }

  function Next<H, V>(s: State<H, V>): (State<H, V>, Option<ReadyActivation<H, V>>) {
    var (s', found) := NextQueued(s, true);
    if found.Some? then (s', found) else NextQueued(s', false)
  }

  // ----- Whole runs -----

  datatype Op<+H, +V> =
    | OpSpawn(coroutine: H, arguments: seq<V>, microtask: bool)
    | OpSpawnArmed(coroutine: H, arguments: seq<V>)
    | OpArmTimer(id: TaskId, deadline: int)
    | OpParkOnTimer(deadline: int)
    | OpArmDescriptor(id: TaskId, fd: Descriptor, interest: Interest, reactor: Reactor)
    | OpParkOnDescriptor(fd: Descriptor, interest: Interest, reactor: Reactor)
    | OpUnreference(id: TaskId)
    | OpReference(id: TaskId)
    | OpCancel(id: TaskId)
    | OpDisarm(id: TaskId)
    | OpWake(id: TaskId, activation: Activation<V>, front: bool)
    | OpPoll(readiness: Option<seq<TaskId>>, now: int)
    | OpPollNonblocking(readiness: Option<seq<TaskId>>, now: int)
    | OpNextMicrotask
    | OpNextReady
    | OpNext
    | OpClearCurrent

  function Apply<H, V>(s: State<H, V>, op: Op<H, V>): State<H, V> {
    match op
    case OpSpawn(coroutine, arguments, microtask) => Spawn(s, coroutine, arguments, microtask)
    case OpSpawnArmed(coroutine, arguments) => InsertTask(s, coroutine, arguments, false)
    case OpArmTimer(id, deadline) => ArmTimer(s, id, deadline)
    case OpParkOnTimer(deadline) => if s.current.Some? then ArmTimer(s, s.current.value, deadline) else s
    case OpArmDescriptor(id, fd, interest, reactor) => ArmDescriptor(s, id, fd, interest, reactor)
    case OpParkOnDescriptor(fd, interest, reactor) =>
      if s.current.Some? then ArmDescriptor(s, s.current.value, fd, interest, reactor) else s
    case OpUnreference(id) => Unreference(s, id)
    case OpReference(id) => Reference(s, id)
    case OpCancel(id) => Cancel(s, id)
    case OpDisarm(id) => Disarm(s, id)
    case OpWake(id, activation, front) => Enqueue(s, id, activation, front)
    case OpPoll(readiness, now) => Poll(s, readiness, now)
    case OpPollNonblocking(readiness, now) => PollNonblocking(s, readiness, now)
    case OpNextMicrotask => NextQueued(s, true).0
    case OpNextReady => NextQueued(s, false).0
    case OpNext => Next(s).0
    case OpClearCurrent => s.(current := None)
  }

  function Run<H, V>(s: State<H, V>, ops: seq<Op<H, V>>): State<H, V>
    decreases |ops|
  {
    if ops == [] then s else Run(Apply(s, ops[0]), ops[1..])
  }
}
