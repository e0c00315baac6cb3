/** A SerialExecutor over a thread pool: serial_executor.cpp and thread_pool_executor.cpp. Every section
    under a mutex is one step, and the workers' steps interleave in any way with posts and stops. */
module Executors {
  import opened Protocol

  datatype Mode = Drain | CancelPending
  datatype Life = Running | Stopping | Halted

  /** The fields of SerialExecutor. Tasks are names. */
  datatype Serial = Serial(
    max: nat, life: Life, mode: Mode, tasks: seq<nat>, scheduled: bool, running: nat, completed: nat, cancelled: nat)

  /** What a pool runs: the drain of the serial executor, or a task of someone else. */
  datatype Job = DrainJob | Other(id: nat)

  /** The fields of the pool's State. */
  datatype Pool = Pool(
    max: nat, life: Life, mode: Mode, jobs: seq<Job>, live: nat, running: nat, completed: nat, cancelled: nat)

  // ---- the serial executor's sections ----

  /** MoveToStoppedIfDrainedLocked. */
  function Settle(s: Serial): Serial {
    if s.life == Stopping && s.tasks == [] && s.running == 0 then s.(life := Halted) else s
  }

  function StopSerial(s: Serial, mode: Mode): Serial {
    if s.life == Halted then s
    else
      var m := if s.life == Running then mode else if mode == CancelPending then CancelPending else s.mode;
      var t := s.(life := Stopping, mode := m);
      Settle(if m == CancelPending then t.(cancelled := t.cancelled + |t.tasks|, tasks := []) else t)
  }

  /** The top of the loop of Drain: nothing left, or the next task. */
  function TakeTask(s: Serial): Serial {
    if s.tasks == [] then Settle(s.(scheduled := false))
    else s.(tasks := s.tasks[1..], running := s.running + 1)
  }

  function FinishTask(s: Serial): Serial
    requires s.running > 0
  {
    Settle(s.(running := s.running - 1, completed := s.completed + 1))
  }

  // ---- the pool's sections ----

  function Submit(p: Pool, job: Job): (Pool, Answer) {
    if p.life != Running then (p, Stopped)
    else if |p.jobs| >= p.max then (p, Saturated)
    else (p.(jobs := p.jobs + [job]), Accepted)
  }

  function StopPool(p: Pool, mode: Mode): Pool {
    if p.life == Halted then p
    else
      var m := if p.life == Running then mode else if mode == CancelPending then CancelPending else p.mode;
      var q := p.(life := Stopping, mode := m);
      var r := if m == CancelPending then q.(cancelled := q.cancelled + |q.jobs|, jobs := []) else q;
      if r.live == 0 then r.(life := Halted) else r
  }

  predicate MayTake(p: Pool) {
    p.jobs != [] && (p.life == Running || p.mode == Drain)
  }

  function TakeJob(p: Pool): Pool
    requires MayTake(p)
  {
    p.(jobs := p.jobs[1..], running := p.running + 1)
  }

  function Leave(p: Pool): Pool {
    var live := if p.live > 0 then p.live - 1 else 0;
    p.(live := live, life := if live == 0 then Halted else p.life)
  }

  function FinishJob(p: Pool): Pool
    requires p.running > 0
  {
    p.(running := p.running - 1, completed := p.completed + 1)
  }

  /** SerialExecutor::Post. The pool is asked while the serial mutex is held, so the two are one step. */
  function Post(s: Serial, p: Pool, task: nat): (Serial, Pool, Answer) {
    if s.life != Running then (s, p, Stopped)
    else if |s.tasks| >= s.max then (s, p, Saturated)
    else if s.scheduled then (s.(tasks := s.tasks + [task]), p, Accepted)
    else
      var r := Submit(p, DrainJob);
      match r.1
      case Accepted => (s.(tasks := s.tasks + [task], scheduled := true), r.0, Accepted)
      case Saturated => (s, r.0, Saturated)
      case Stopped => (s.(life := Halted), r.0, Stopped)
  }

  // ---- workers ----

  /** Where a worker thread stands: waiting for a job, running someone's task, at the top of Drain,
      running a serial task, done with its job, or returned. */
  datatype Worker = Idle | Busy(id: nat) | Looking | Executing(task: nat) | Leaving | Gone

  /** Everything, and what has happened to the serial tasks: accepted, run to the end, cancelled; how many
      drains a pool stop threw away; how many jobs the pool accepted. */
  datatype System = System(
    serial: Serial, pool: Pool, workers: seq<Worker>,
    accepted: seq<nat>, executed: seq<nat>, dropped: seq<nat>, lost: nat, submitted: nat)

  function Fresh(serialMax: nat, poolMax: nat, workers: nat): System {
    System(Serial(serialMax, Running, Drain, [], false, 0, 0, 0), Pool(poolMax, Running, Drain, [], workers, 0, 0, 0),
           seq(workers, i => Idle), [], [], [], 0, 0)
  }

  datatype Move = PostTask(task: nat) | PostOther(id: nat) | SerialStop(mode: Mode) | PoolStop(mode: Mode) | Work(worker: nat)

  /** A worker can move unless it is waiting with nothing to wait for, or has returned. */
  predicate CanWork(s: System, w: nat) {
    w < |s.workers| &&
    match s.workers[w]
    case Idle => MayTake(s.pool) || s.pool.life != Running
    case Executing(_) => s.serial.running > 0
    case Leaving => s.pool.running > 0
    case Gone => false
    case _ => true
  }

  predicate Enabled(s: System, m: Move) {
    m.Work? ==> CanWork(s, m.worker)
  }

  function WorkStep(s: System, w: nat): System
    requires CanWork(s, w)
  {
    match s.workers[w]
    case Idle =>
      if MayTake(s.pool) then
        var next := match s.pool.jobs[0] case DrainJob => Looking case Other(id) => Busy(id);
        s.(pool := TakeJob(s.pool), workers := s.workers[w := next])
      else s.(pool := Leave(s.pool), workers := s.workers[w := Gone])
    case Busy(_) => s.(workers := s.workers[w := Leaving])
    case Looking =>
      var next := if s.serial.tasks == [] then Leaving else Executing(s.serial.tasks[0]);
      s.(serial := TakeTask(s.serial), workers := s.workers[w := next])
    case Executing(task) =>
      s.(serial := FinishTask(s.serial), workers := s.workers[w := Looking], executed := s.executed + [task])
    case Leaving => s.(pool := FinishJob(s.pool), workers := s.workers[w := Idle])
    case Gone => s
  }

  function DrainJobs(jobs: seq<Job>): nat {
    if jobs == [] then 0 else (if jobs[0] == DrainJob then 1 else 0) + DrainJobs(jobs[1..])
  }

  function Step(s: System, m: Move): System
    requires Enabled(s, m)
  {
    match m
    case PostTask(task) =>
      var r := Post(s.serial, s.pool, task);
      s.(serial := r.0, pool := r.1, accepted := if r.2 == Accepted then s.accepted + [task] else s.accepted,
         submitted := s.submitted + |r.1.jobs| - |s.pool.jobs|)
    case PostOther(id) =>
      var r := Submit(s.pool, Other(id));
      s.(pool := r.0, submitted := s.submitted + |r.0.jobs| - |s.pool.jobs|)
    case SerialStop(mode) =>
      var t := StopSerial(s.serial, mode);
      s.(serial := t, dropped := if t.tasks == [] then s.serial.tasks + s.dropped else s.dropped)
    case PoolStop(mode) =>
      var q := StopPool(s.pool, mode);
      s.(pool := q, lost := s.lost + DrainJobs(s.pool.jobs) - DrainJobs(q.jobs))
    case Work(w) => WorkStep(s, w)
  }
}
