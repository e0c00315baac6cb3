/** SerialExecutor and the pool as objects; each method is one section under a mutex and does what module Executors says. */
module ExecutorObjects {
  import opened Bytes
  import opened Protocol
  import opened Executors

  class ThreadPoolContext {
    const maxPending: nat
    var life: Life
    var mode: Mode
    var jobs: seq<Job>
    var live: nat
    var running: nat
    var completed: nat
    var cancelled: nat

    ghost function Model(): Pool
      reads this
    {
      Pool(maxPending, life, mode, jobs, live, running, completed, cancelled)
    }

    constructor (workers: nat, maxPending: nat)
      ensures Model() == Pool(maxPending, Running, Drain, [], workers, 0, 0, 0)
    {
      this.maxPending := maxPending;
      life, mode, jobs, live := Running, Drain, [], 0;
      running, completed, cancelled := 0, 0, 0;
      new;
      for i := 0 to workers
        invariant live == i && life == Running && mode == Drain && jobs == [] && running == completed == cancelled == 0
      {
        live := live + 1;
      }
    }

    method Submit(job: Job) returns (status: Answer)
      modifies this
      ensures (Model(), status) == Executors.Submit(old(Model()), job)
    {
      if life != Running {
        return Stopped;
      }
      if |jobs| >= maxPending {
        return Saturated;
      }
      jobs := jobs + [job];
      return Accepted;
    }

    method Stop(how: Mode)
      modifies this
      ensures Model() == StopPool(old(Model()), how)
    {
      if life == Halted {
        return;
      }
      if life == Running {
        life, mode := Stopping, how;
      } else if how == CancelPending {
        mode := CancelPending;
      }
      if mode == CancelPending {
        cancelled := cancelled + |jobs|;
        jobs := [];
      }
      if live == 0 {
        life := Halted;
      }
    }

    /** The first section of a worker's loop, once its wait is over. */
    method TakeOrLeave() returns (job: Option<Job>)
      requires MayTake(Model()) || life != Running
      modifies this
      ensures old(MayTake(Model())) ==> job == Some(old(jobs)[0]) && Model() == TakeJob(old(Model()))
      ensures !old(MayTake(Model())) ==> job == None && Model() == Leave(old(Model()))
    {
      if jobs != [] && (life == Running || mode == Drain) {
        job := Some(jobs[0]);
        jobs := jobs[1..];
        running := running + 1;
        return;
      }
      if live > 0 {
        live := live - 1;
      }
      if live == 0 {
        life := Halted;
      }
      return None;
    }

    /** The second section, after the job ran. */
    method JobDone()
      requires running > 0
      modifies this
      ensures Model() == FinishJob(old(Model()))
    {
      running := running - 1;
      completed := completed + 1;
    }
  }

  class SerialExecutor {
    const maxPending: nat
    const underlying: ThreadPoolContext
    var life: Life
    var mode: Mode
    var tasks: seq<nat>
    var scheduled: bool
    var running: nat
    var completed: nat
    var cancelled: nat

    ghost function Model(): Serial
      reads this
    {
      Serial(maxPending, life, mode, tasks, scheduled, running, completed, cancelled)
    }

    constructor (underlying: ThreadPoolContext, maxPending: nat)
      ensures this.underlying == underlying && Model() == Serial(maxPending, Running, Drain, [], false, 0, 0, 0)
    {
      this.underlying, this.maxPending := underlying, maxPending;
      life, mode, tasks, scheduled := Running, Drain, [], false;
      running, completed, cancelled := 0, 0, 0;
    }

    /** Post: queued first and taken back if the pool refuses the drain. */
    method PostTask(task: nat) returns (status: Answer)
      modifies this, underlying
      ensures (Model(), underlying.Model(), status) == Post(old(Model()), old(underlying.Model()), task)
    {
      if life != Running {
        return Stopped;
      }
      if |tasks| >= maxPending {
        return Saturated;
      }
      tasks := tasks + [task];
      if scheduled {
        return Accepted;
      }
      scheduled := true;
      status := underlying.Submit(DrainJob);
      if status != Accepted {
        scheduled := false;
        tasks := tasks[..|tasks| - 1];
        assert tasks == old(tasks);
        if status == Stopped {
          life := Halted;
        }
      }
    }

    method MoveToStoppedIfDrained()
      modifies this`life
      ensures Model() == Settle(old(Model()))
    {
      if life == Stopping && tasks == [] && running == 0 {
        life := Halted;
      }
    }

    method Stop(how: Mode)
      modifies this
      ensures Model() == StopSerial(old(Model()), how)
    {
      if life == Halted {
        return;
      }
      if life == Running {
        life, mode := Stopping, how;
      } else if how == CancelPending {
        mode := CancelPending;
      }
      if mode == CancelPending {
        cancelled := cancelled + |tasks|;
        tasks := [];
      }
      MoveToStoppedIfDrained();
    }

    /** The top of the loop of Drain. */
    method Next() returns (task: Option<nat>)
      modifies this
      ensures Model() == TakeTask(old(Model()))
      ensures task == if old(tasks) == [] then None else Some(old(tasks)[0])
    {
      if tasks == [] {
        scheduled := false;
        MoveToStoppedIfDrained();
        return None;
      }
      task := Some(tasks[0]);
      tasks := tasks[1..];
      running := running + 1;
    }

    /** The end of the loop of Drain, after a task ran. */
    method TaskDone()
      requires running > 0
      modifies this
      ensures Model() == FinishTask(old(Model()))
    {
      running := running - 1;
      completed := completed + 1;
      MoveToStoppedIfDrained();
    }
  }
}
