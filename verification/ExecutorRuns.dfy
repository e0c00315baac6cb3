/** What holds under every interleaving of posts, stops and workers' steps. */
module ExecutorRuns {
  import opened Executors
  import opened Protocol

  // ---- counting workers ----

  function Total(ws: seq<Worker>, f: Worker -> nat): nat {
    if ws == [] then 0 else f(ws[0]) + Total(ws[1..], f)
  }

  lemma {:induction false} TotalUpdate(ws: seq<Worker>, f: Worker -> nat, i: nat, w: Worker)
    requires i < |ws|
    ensures Total(ws[i := w], f) + f(ws[i]) == Total(ws, f) + f(w)
    ensures f(ws[i]) <= Total(ws, f)
    decreases |ws|
  {
    if i == 0 {
      assert ws[0 := w][1..] == ws[1..];
    } else {
      assert ws[i := w][1..] == ws[1..][i - 1 := w];
      TotalUpdate(ws[1..], f, i - 1, w);
    }
  }

  /** Inside Drain; running a serial task; engaged with a job; not yet returned. */
  function Draining(w: Worker): nat { if w.Looking? || w.Executing? then 1 else 0 }
  function Engaged(w: Worker): nat { if w.Idle? || w.Gone? then 0 else 1 }
  function Alive(w: Worker): nat { if w.Gone? then 0 else 1 }

  /** The serial tasks being run. */
  function Doing(ws: seq<Worker>): seq<nat> {
    if ws == [] then []
    else (if ws[0].Executing? then [ws[0].task] else []) + Doing(ws[1..])
  }

  /** If worker i is the only one inside Drain, its task is the only one being run. */
  lemma {:induction false} DoingAlone(ws: seq<Worker>, i: nat)
    requires i < |ws| && Total(ws, Draining) == Draining(ws[i])
    ensures Doing(ws) == if ws[i].Executing? then [ws[i].task] else []
    decreases |ws|
  {
    if i == 0 {
      DoingNone(ws[1..]);
    } else {
      TotalUpdate(ws[1..], Draining, i - 1, Idle);
      DoingAlone(ws[1..], i - 1);
    }
  }

  lemma {:induction false} DoingNone(ws: seq<Worker>)
    requires Total(ws, Draining) == 0
    ensures Doing(ws) == []
  {
    if ws != [] {
      DoingNone(ws[1..]);
    }
  }

  /** A change of a worker that is outside Drain before and after does not touch the running tasks. */
  lemma {:induction false} DoingElsewhere(ws: seq<Worker>, i: nat, w: Worker)
    requires i < |ws| && !ws[i].Executing? && !w.Executing?
    ensures Doing(ws[i := w]) == Doing(ws)
    decreases |ws|
  {
    if i == 0 {
      assert ws[0 := w][1..] == ws[1..];
    } else {
      assert ws[i := w][1..] == ws[1..][i - 1 := w];
      DoingElsewhere(ws[1..], i - 1, w);
    }
  }

  lemma {:induction false} DrainJobsLast(jobs: seq<Job>, job: Job)
    ensures DrainJobs(jobs + [job]) == DrainJobs(jobs) + if job == DrainJob then 1 else 0
  {
    if jobs == [] {
      assert jobs + [job] == [job];
    } else {
      assert (jobs + [job])[1..] == jobs[1..] + [job];
      DrainJobsLast(jobs[1..], job);
    }
  }

  // ---- the invariant ----

  /** One drain at most: queued in the pool, or being run by a worker, or thrown away by a pool stop. */
  predicate OneDrain(s: System) {
    && DrainJobs(s.pool.jobs) + Total(s.workers, Draining) + s.lost == (if s.serial.scheduled then 1 else 0)
    && (s.serial.tasks != [] ==> s.serial.scheduled)
    && |s.serial.tasks| <= s.serial.max
  }

  /** Accepted tasks are, in order: run, running, pending, cancelled. */
  predicate InOrder(s: System) {
    && s.accepted == s.executed + Doing(s.workers) + s.serial.tasks + s.dropped
    && s.serial.running == |Doing(s.workers)| && s.serial.completed == |s.executed| && s.serial.cancelled == |s.dropped|
    && (s.serial.life == Running ==> s.dropped == [])
    && (s.serial.life == Halted ==> s.serial.tasks == [] && s.serial.running == 0)
    && (s.serial.life == Stopping ==> s.serial.tasks != [] || s.serial.running > 0)
    && (s.serial.life == Stopping && s.serial.mode == CancelPending ==> s.serial.tasks == [])
  }

  predicate PoolOk(s: System) {
    && s.pool.running == Total(s.workers, Engaged) && s.pool.live == Total(s.workers, Alive)
    && (s.pool.life == Halted <==> s.pool.live == 0)
    && s.submitted == |s.pool.jobs| + s.pool.running + s.pool.completed + s.pool.cancelled
    && |s.pool.jobs| <= s.pool.max
    && (s.pool.live < |s.workers| ==> s.pool.jobs == [] && s.pool.life != Running)
    && (s.pool.life != Running && s.pool.mode == CancelPending ==> s.pool.jobs == [])
    && |s.workers| > 0
  }

  predicate Inv(s: System) {
    OneDrain(s) && InOrder(s) && PoolOk(s)
  }

  /** What one worker's change does to the counts. */
  lemma Counts(s: System, w: nat, next: Worker)
    requires w < |s.workers|
    ensures var ws := s.workers[w := next];
            && Total(ws, Draining) + Draining(s.workers[w]) == Total(s.workers, Draining) + Draining(next)
            && Total(ws, Engaged) + Engaged(s.workers[w]) == Total(s.workers, Engaged) + Engaged(next)
            && Total(ws, Alive) + Alive(s.workers[w]) == Total(s.workers, Alive) + Alive(next)
            && Draining(s.workers[w]) <= Total(s.workers, Draining) && Engaged(s.workers[w]) <= Total(s.workers, Engaged)
            && Alive(s.workers[w]) <= Total(s.workers, Alive)
  {
    TotalUpdate(s.workers, Draining, w, next);
    TotalUpdate(s.workers, Engaged, w, next);
    TotalUpdate(s.workers, Alive, w, next);
  }

  lemma IdleKeeps(s: System, w: nat)
    requires Inv(s) && CanWork(s, w) && s.workers[w].Idle?
    ensures Inv(WorkStep(s, w))
  {
    hide Total, Doing;
    var t := WorkStep(s, w);
    Counts(s, w, t.workers[w]);
    assert t.workers == s.workers[w := t.workers[w]];
    DoingElsewhere(s.workers, w, t.workers[w]);
  }

  lemma LookingKeeps(s: System, w: nat)
    requires Inv(s) && CanWork(s, w) && s.workers[w].Looking?
    ensures Inv(WorkStep(s, w))
  {
    hide Total, Doing;
    var t := WorkStep(s, w);
    Counts(s, w, t.workers[w]);
    assert t.workers == s.workers[w := t.workers[w]];
    DoingAlone(s.workers, w);
    if s.serial.tasks == [] {
      DoingNone(t.workers);
    } else {
      DoingAlone(t.workers, w);
      assert s.serial.tasks == [s.serial.tasks[0]] + s.serial.tasks[1..];
      assert s.executed + [] + s.serial.tasks + s.dropped == t.executed + Doing(t.workers) + t.serial.tasks + t.dropped;
    }
  }

  lemma ExecutingKeeps(s: System, w: nat)
    requires Inv(s) && CanWork(s, w) && s.workers[w].Executing?
    ensures Inv(WorkStep(s, w))
  {
    hide Total, Doing;
    var t := WorkStep(s, w);
    Counts(s, w, t.workers[w]);
    assert t.workers == s.workers[w := t.workers[w]];
    DoingAlone(s.workers, w);
    DoingAlone(t.workers, w);
    assert t.executed + [] == t.executed;
  }

  lemma OtherWorkKeeps(s: System, w: nat)
    requires Inv(s) && CanWork(s, w) && (s.workers[w].Busy? || s.workers[w].Leaving?)
    ensures Inv(WorkStep(s, w))
  {
    hide Total, Doing;
    var t := WorkStep(s, w);
    Counts(s, w, t.workers[w]);
    assert t.workers == s.workers[w := t.workers[w]];
    DoingElsewhere(s.workers, w, t.workers[w]);
  }

  lemma PostKeeps(s: System, task: nat)
    requires Inv(s)
    ensures Inv(Step(s, PostTask(task)))
  {
    hide Total, Doing;
    DrainJobsLast(s.pool.jobs, DrainJob);
    var t := Step(s, PostTask(task));
    if t.accepted != s.accepted {
      assert s.dropped == [];
      var before := s.executed + Doing(s.workers);
      assert before + s.serial.tasks + [] == before + s.serial.tasks;
      assert before + (s.serial.tasks + [task]) + [] == before + s.serial.tasks + [task];
    } else if t.serial.life != s.serial.life {
      assert Total(s.workers, Draining) == 0;
      DoingNone(s.workers);
    }
  }

  lemma PoolStopKeeps(s: System, mode: Mode)
    requires Inv(s)
    ensures Inv(Step(s, PoolStop(mode)))
  {
    hide Total, Doing;
  }

  lemma SerialStopKeeps(s: System, mode: Mode)
    requires Inv(s)
    ensures Inv(Step(s, SerialStop(mode)))
  {
    hide Total, Doing, DrainJobs, InOrder;
    StopInOrder(s, mode);
  }

  lemma StopInOrder(s: System, mode: Mode)
    requires InOrder(s)
    ensures InOrder(Step(s, SerialStop(mode)))
  {
    hide Doing;
    var t := Step(s, SerialStop(mode));
    Regrouped(s.executed + Doing(s.workers), s.serial.tasks, s.dropped);
    if t.serial.tasks != [] {
      assert t.serial.tasks == s.serial.tasks;
    }
  }

  lemma Regrouped(a: seq<nat>, b: seq<nat>, c: seq<nat>)
    ensures a + b + c == a + [] + (b + c)
  {
  }

  lemma OtherKeeps(s: System, id: nat)
    requires Inv(s)
    ensures Inv(Step(s, PostOther(id)))
  {
    hide Total, Doing;
    DrainJobsLast(s.pool.jobs, Other(id));
  }

  lemma StepKeeps(s: System, m: Move)
    requires Inv(s) && Enabled(s, m)
    ensures Inv(Step(s, m))
  {
    hide Inv, WorkStep;
    match m
    case PostTask(task) => PostKeeps(s, task);
    case PostOther(id) => OtherKeeps(s, id);
    case SerialStop(mode) => SerialStopKeeps(s, mode);
    case PoolStop(mode) => PoolStopKeeps(s, mode);
    case Work(w) =>
      match s.workers[w]
      case Idle => IdleKeeps(s, w);
      case Looking => LookingKeeps(s, w);
      case Executing(_) => ExecutingKeeps(s, w);
      case _ => OtherWorkKeeps(s, w);
  }

  // ---- every interleaving ----

  ghost predicate Possible(s: System, moves: seq<Move>)
    decreases |moves|
  {
    moves == [] || (Enabled(s, moves[0]) && Possible(Step(s, moves[0]), moves[1..]))
  }

  ghost function Run(s: System, moves: seq<Move>): System
    requires Possible(s, moves)
    decreases |moves|
  {
    if moves == [] then s else Run(Step(s, moves[0]), moves[1..])
  }

  lemma {:induction false} RunKeeps(s: System, moves: seq<Move>)
    requires Inv(s) && Possible(s, moves)
    ensures Inv(Run(s, moves))
    decreases |moves|
  {
    hide Inv, Step, Enabled;
    if moves != [] {
      StepKeeps(s, moves[0]);
      RunKeeps(Step(s, moves[0]), moves[1..]);
    }
  }

  lemma {:induction false} IdleCounts(ws: seq<Worker>)
    requires forall i :: 0 <= i < |ws| ==> ws[i] == Idle
    ensures Total(ws, Draining) == 0 && Total(ws, Engaged) == 0 && Total(ws, Alive) == |ws| && Doing(ws) == []
  {
    if ws != [] {
      IdleCounts(ws[1..]);
    }
  }

  lemma FreshInv(serialMax: nat, poolMax: nat, workers: nat)
    requires workers > 0
    ensures Inv(Executors.Fresh(serialMax, poolMax, workers))
  {
    hide Total, Doing;
    IdleCounts(Executors.Fresh(serialMax, poolMax, workers).workers);
  }

  /** The serial guarantee under every interleaving: at most one drain is active, pending tasks have one
      scheduled, tasks begun are a prefix of those accepted with at most one of them running, and
      accepted tasks are exactly the pending, running, completed and cancelled ones. */
  lemma SerialGuarantee(serialMax: nat, poolMax: nat, workers: nat, moves: seq<Move>)
    requires workers > 0 && Possible(Executors.Fresh(serialMax, poolMax, workers), moves)
    ensures var s := Run(Executors.Fresh(serialMax, poolMax, workers), moves);
            && DrainJobs(s.pool.jobs) + Total(s.workers, Draining) <= 1
            && (s.serial.tasks != [] ==> s.serial.scheduled)
            && |Doing(s.workers)| <= 1 && s.executed + Doing(s.workers) <= s.accepted
            && |s.accepted| == |s.serial.tasks| + s.serial.running + s.serial.completed + s.serial.cancelled
            && s.submitted == |s.pool.jobs| + s.pool.running + s.pool.completed + s.pool.cancelled
            && (s.serial.life == Halted ==> s.serial.tasks == [] && s.serial.running == 0)
  {
    hide Run, Step, Total, Doing;
    FreshInv(serialMax, poolMax, workers);
    RunKeeps(Executors.Fresh(serialMax, poolMax, workers), moves);
    var s := Run(Executors.Fresh(serialMax, poolMax, workers), moves);
    DoingAtMost(s.workers);
  }

  lemma {:induction false} DoingAtMost(ws: seq<Worker>)
    ensures |Doing(ws)| <= Total(ws, Draining)
  {
    if ws != [] {
      DoingAtMost(ws[1..]);
    }
  }

  // ---- draining stops ----

  predicate Gentle(m: Move) {
    m != SerialStop(CancelPending) && m != PoolStop(CancelPending)
  }

  /** Nothing was cancelled, and no drain thrown away. */
  predicate Intact(s: System) {
    s.lost == 0 && s.dropped == [] && s.serial.mode == Drain && s.pool.mode == Drain
  }

  lemma GentleKeepsIntact(s: System, m: Move)
    requires Inv(s) && Intact(s) && Enabled(s, m) && Gentle(m)
    ensures Intact(Step(s, m))
  {
    hide Total, Doing;
    if m.SerialStop? && Step(s, m).serial.tasks == [] {
      assert s.serial.tasks == [] by { DrainStop(s.serial); }
    }
  }

  lemma DrainStop(s: Serial)
    requires s.mode == Drain
    ensures StopSerial(s, Drain).tasks == s.tasks
  {
  }

  lemma {:induction false} RunIntact(s: System, moves: seq<Move>)
    requires Inv(s) && Intact(s) && Possible(s, moves) && forall i :: 0 <= i < |moves| ==> Gentle(moves[i])
    ensures Intact(Run(s, moves)) && Inv(Run(s, moves))
    decreases |moves|
  {
    hide Inv, Step, Enabled, Gentle, Intact;
    if moves != [] {
      GentleKeepsIntact(s, moves[0]);
      StepKeeps(s, moves[0]);
      RunIntact(Step(s, moves[0]), moves[1..]);
    }
  }

  /** With stops that drain, in any order, an executor that has stopped has run every accepted task,
      once, in order. */
  lemma DrainStopsRunEverything(serialMax: nat, poolMax: nat, workers: nat, moves: seq<Move>)
    requires workers > 0 && Possible(Executors.Fresh(serialMax, poolMax, workers), moves)
    requires forall i :: 0 <= i < |moves| ==> Gentle(moves[i])
    ensures var s := Run(Executors.Fresh(serialMax, poolMax, workers), moves);
            s.serial.life == Halted ==> s.executed == s.accepted
  {
    hide Run, Step, Total, Doing, Gentle;
    FreshInv(serialMax, poolMax, workers);
    RunIntact(Executors.Fresh(serialMax, poolMax, workers), moves);
    var s := Run(Executors.Fresh(serialMax, poolMax, workers), moves);
    if s.serial.life == Halted {
      assert s.executed + [] + [] + [] == s.executed;
      assert Doing(s.workers) == [];
    }
  }

  // ---- progress ----

  lemma {:induction false} SomeDraining(ws: seq<Worker>) returns (w: nat)
    requires Total(ws, Draining) > 0
    ensures w < |ws| && (ws[w].Looking? || ws[w].Executing?)
    decreases |ws|
  {
    if Draining(ws[0]) > 0 {
      w := 0;
    } else {
      w := SomeDraining(ws[1..]);
      w := w + 1;
    }
  }

  lemma {:induction false} SomeAlive(ws: seq<Worker>) returns (w: nat)
    requires Total(ws, Alive) > 0
    ensures w < |ws| && !ws[w].Gone?
    decreases |ws|
  {
    if Alive(ws[0]) > 0 {
      w := 0;
    } else {
      w := SomeAlive(ws[1..]);
      w := w + 1;
    }
  }

  lemma EngagedMayMove(s: System, w: nat)
    requires Inv(s) && w < |s.workers| && !s.workers[w].Idle? && !s.workers[w].Gone?
    ensures CanWork(s, w)
  {
    hide Total, Doing;
    Counts(s, w, Idle);
    if s.workers[w].Executing? {
      DoingAlone(s.workers, w);
    }
  }

  /** While serial work remains and no drain was thrown away, some worker can move. */
  lemma Progress(s: System) returns (w: nat)
    requires Inv(s) && s.lost == 0 && (s.serial.tasks != [] || s.serial.running > 0)
    ensures CanWork(s, w)
  {
    hide Total, Doing;
    DoingAtMost(s.workers);
    if Total(s.workers, Draining) > 0 {
      w := SomeDraining(s.workers);
      EngagedMayMove(s, w);
    } else {
      assert s.pool.jobs != [];
      w := SomeAlive(s.workers);
      if !s.workers[w].Idle? {
        EngagedMayMove(s, w);
      }
    }
  }

  function Weight(w: Worker): nat {
    match w
    case Gone => 0
    case Idle => 1
    case Leaving => 2
    case Busy(_) => 3
    case Looking => 4
    case Executing(_) => 5
  }

  /** How many steps the workers can still take, at most. */
  function Load(s: System): nat {
    4 * |s.pool.jobs| + 2 * |s.serial.tasks| + Total(s.workers, Weight)
  }

  lemma WorkLightens(s: System, w: nat)
    requires CanWork(s, w)
    ensures Load(WorkStep(s, w)) < Load(s)
  {
    hide Total;
    TotalUpdate(s.workers, Weight, w, WorkStep(s, w).workers[w]);
    assert WorkStep(s, w).workers == s.workers[w := WorkStep(s, w).workers[w]];
  }

  ghost predicate OnlyWork(moves: seq<Move>) {
    forall i :: 0 <= i < |moves| ==> moves[i].Work?
  }

  /** Workers left to themselves come to rest. */
  lemma {:induction false} WorkIsFinite(s: System, moves: seq<Move>)
    requires Possible(s, moves) && OnlyWork(moves)
    ensures |moves| <= Load(s)
    decreases |moves|
  {
    hide Load, WorkStep, CanWork;
    if moves != [] {
      WorkLightens(s, moves[0].worker);
      WorkIsFinite(Step(s, moves[0]), moves[1..]);
    }
  }

  lemma {:induction false} WorkKeepsAccepted(s: System, moves: seq<Move>)
    requires Possible(s, moves) && OnlyWork(moves)
    ensures Run(s, moves).accepted == s.accepted && (s.serial.life != Running ==> Run(s, moves).serial.life != Running)
    decreases |moves|
  {
    if moves != [] {
      WorkKeepsAccepted(Step(s, moves[0]), moves[1..]);
    }
  }

  /** A draining stop gets there: whatever order the workers move in, when none can move any more the
      executor has stopped and every accepted task has run, once, in order. */
  lemma StopCompletes(s: System, moves: seq<Move>)
    requires Inv(s) && Intact(s) && s.serial.life != Running && Possible(s, moves) && OnlyWork(moves)
    requires forall w :: !CanWork(Run(s, moves), w)
    ensures var t := Run(s, moves);
            t.serial.life == Halted && t.executed == s.accepted && t.serial.tasks == []
  {
    hide Total, Doing, Run, CanWork, Intact, Possible;
    assert forall i :: 0 <= i < |moves| ==> Gentle(moves[i]);
    RunIntact(s, moves);
    WorkKeepsAccepted(s, moves);
    var t := Run(s, moves);
    assert t.lost == 0 && t.dropped == [] by { IntactParts(t); }
    if t.serial.tasks != [] || t.serial.running > 0 {
      var w := Progress(t);
    }
    assert Doing(t.workers) == [];
    assert t.executed + [] + [] + [] == t.executed;
  }

  lemma IntactParts(s: System)
    requires Intact(s)
    ensures s.lost == 0 && s.dropped == []
  {
  }

  // ---- any stop ----

  /** No worker can move. */
  ghost predicate AtRest(s: System) {
    forall w :: !CanWork(s, w)
  }

  lemma {:induction false} RestRunsNothing(s: System)
    requires Inv(s) && AtRest(s)
    ensures s.serial.running == 0
  {
    hide Total, Doing, CanWork;
    if s.serial.running > 0 {
      DoingAtMost(s.workers);
      var w := SomeDraining(s.workers);
      EngagedMayMove(s, w);
    }
  }

  /** Whatever stops there were: a stopping executor that is at rest has stopped if and only if no pool
      stop threw its drain away, or no task was left pending. */
  lemma RestHaltedIff(s: System)
    requires Inv(s) && AtRest(s) && s.serial.life != Running
    ensures s.serial.life == Halted <==> s.lost == 0 || s.serial.tasks == []
    ensures s.lost == 0 ==> s.serial.tasks == []
  {
    hide Total, Doing, CanWork;
    RestRunsNothing(s);
    if s.lost == 0 && s.serial.tasks != [] {
      var w := Progress(s);
    }
  }

  predicate Spares(m: Move) {
    m != SerialStop(CancelPending)
  }

  /** Tasks without a drain. */
  predicate Stranded(s: System) {
    s.lost > 0 && s.serial.tasks != [] && s.serial.life != Halted
    && !(s.serial.life == Stopping && s.serial.mode == CancelPending)
  }

  lemma StrandedStays(s: System, m: Move)
    requires Inv(s) && Stranded(s) && Enabled(s, m) && Spares(m)
    ensures Stranded(Step(s, m)) && s.serial.tasks <= Step(s, m).serial.tasks
  {
    hide Total, Doing;
    if m.Work? {
      Counts(s, m.worker, Idle);
    }
  }

  /** Once its drain is thrown away with tasks pending, a serial executor never runs them and never stops,
      unless it is told to cancel them. */
  lemma {:induction false} LostDrainStrands(s: System, moves: seq<Move>)
    requires Inv(s) && Stranded(s) && Possible(s, moves) && forall i :: 0 <= i < |moves| ==> Spares(moves[i])
    ensures var t := Run(s, moves); Stranded(t) && t.serial.life != Halted && s.serial.tasks <= t.serial.tasks
    decreases |moves|
  {
    hide Inv, Step, Enabled, Spares;
    if moves != [] {
      StrandedStays(s, moves[0]);
      StepKeeps(s, moves[0]);
      LostDrainStrands(Step(s, moves[0]), moves[1..]);
    }
  }

  /** Two moves are enough to get there. */
  lemma CancelledPoolStrands(serialMax: nat, poolMax: nat, workers: nat, task: nat)
    requires serialMax > 0 && poolMax > 0 && workers > 0
    ensures var start := Executors.Fresh(serialMax, poolMax, workers);
            Stranded(Step(Step(start, PostTask(task)), PoolStop(CancelPending)))
  {
    var jobs := [DrainJob];
    assert jobs[1..] == [] && DrainJobs(jobs) == 1 && [] + jobs == jobs;
  }

  // ---- the pool stop that strands ----

  /** The guard of the failing call: it cancels, and the drain is still queued with tasks behind it. */
  predicate Discards(s: System, m: Move) {
    m == PoolStop(CancelPending) && DrainJobs(s.pool.jobs) > 0 && s.serial.tasks != []
  }

  /** A pool stop strands the serial executor exactly under that guard. */
  lemma PoolStopStrandsIff(s: System, mode: Mode)
    requires Inv(s) && s.lost == 0
    ensures Stranded(Step(s, PoolStop(mode))) <==> Discards(s, PoolStop(mode))
  {
    hide Total, Doing;
  }

  lemma {:induction false} TotalZeroIff(ws: seq<Worker>)
    ensures Total(ws, Draining) == 0 <==> forall w :: 0 <= w < |ws| ==> !ws[w].Looking? && !ws[w].Executing?
  {
    if ws != [] {
      TotalZeroIff(ws[1..]);
      assert forall w :: 0 < w < |ws| ==> ws[w] == ws[1..][w - 1];
      assert forall w :: 0 <= w < |ws| - 1 ==> ws[1..][w] == ws[w + 1];
    }
  }

  /** While tasks wait, the drain is still queued exactly when no worker is inside it. */
  lemma DrainQueuedIff(s: System)
    requires Inv(s) && s.lost == 0 && s.serial.tasks != []
    ensures DrainJobs(s.pool.jobs) > 0 <==> forall w :: 0 <= w < |s.workers| ==> !s.workers[w].Looking? && !s.workers[w].Executing?
  {
    hide Total, Doing;
    TotalZeroIff(s.workers);
  }

  /** A queued drain has tasks behind it, and a discarded one has stranded the executor, unless it stopped. */
  predicate Kept(s: System) {
    s.serial.life != Halted ==> (DrainJobs(s.pool.jobs) > 0 ==> s.serial.tasks != []) && (s.lost > 0 ==> Stranded(s))
  }

  lemma WorkKept(s: System, w: nat)
    requires Inv(s) && Kept(s) && CanWork(s, w)
    ensures Kept(WorkStep(s, w))
  {
    hide Total, Doing;
    Counts(s, w, Idle);
  }

  lemma PostKept(s: System, task: nat)
    requires Inv(s) && Kept(s)
    ensures Kept(Step(s, PostTask(task)))
  {
    hide Total, Doing;
    DrainJobsLast(s.pool.jobs, DrainJob);
  }

  lemma StopsKept(s: System, mode: Mode)
    requires Inv(s) && Kept(s)
    ensures Kept(Step(s, SerialStop(mode))) && Kept(Step(s, PoolStop(mode)))
  {
    hide Total, Doing;
    DoingAtMost(s.workers);
  }

  lemma StepKept(s: System, m: Move)
    requires Inv(s) && Kept(s) && Enabled(s, m)
    ensures Kept(Step(s, m))
  {
    hide Inv, Kept, WorkStep, DrainJobs;
    match m
    case PostTask(task) => PostKept(s, task);
    case PostOther(id) => OtherKept(s, id);
    case SerialStop(mode) => StopsKept(s, mode);
    case PoolStop(mode) => StopsKept(s, mode);
    case Work(w) => WorkKept(s, w);
  }

  lemma OtherKept(s: System, id: nat)
    requires Kept(s)
    ensures Kept(Step(s, PostOther(id)))
  {
    DrainJobsLast(s.pool.jobs, Other(id));
  }

  /** Some pool stop of the run meets the guard, and the serial executor is not told to cancel after it. */
  ghost predicate StrandedBy(s: System, moves: seq<Move>)
    requires Possible(s, moves)
    decreases |moves|
  {
    moves != [] &&
    ((Discards(s, moves[0]) && forall i :: 0 < i < |moves| ==> Spares(moves[i])) || StrandedBy(Step(s, moves[0]), moves[1..]))
  }

  /** What one move does once a drain is lost. */
  lemma LostStep(s: System, m: Move)
    requires Inv(s) && Kept(s) && s.lost > 0 && Enabled(s, m)
    ensures !Discards(s, m) && Step(s, m).lost > 0
    ensures Stranded(Step(s, m)) <==> Stranded(s) && Spares(m)
  {
    hide Total, Doing;
    DoingAtMost(s.workers);
    if Stranded(s) && Spares(m) {
      StrandedStays(s, m);
    } else if m.Work? {
      Counts(s, m.worker, Idle);
    }
  }

  lemma {:induction false} AfterLoss(s: System, moves: seq<Move>)
    requires Inv(s) && Kept(s) && s.lost > 0 && Possible(s, moves)
    ensures Stranded(Run(s, moves)) <==> Stranded(s) && forall i :: 0 <= i < |moves| ==> Spares(moves[i])
    ensures !StrandedBy(s, moves) && Kept(Run(s, moves))
    decreases |moves|
  {
    hide Inv, Step, Enabled, Spares, Kept, Stranded, Discards;
    if moves != [] {
      LostStep(s, moves[0]);
      StepKeeps(s, moves[0]);
      StepKept(s, moves[0]);
      AfterLoss(Step(s, moves[0]), moves[1..]);
      assert forall i :: 0 < i < |moves| ==> moves[i] == moves[1..][i - 1];
      assert forall i :: 0 <= i < |moves| - 1 ==> moves[1..][i] == moves[i + 1];
    }
  }

  /** The first loss: it strands under the guard, and otherwise finds the executor stopped. */
  lemma LosesIff(s: System, m: Move)
    requires Inv(s) && Kept(s) && s.lost == 0 && Enabled(s, m)
    ensures Step(s, m).lost > 0 ==> (Stranded(Step(s, m)) <==> Discards(s, m))
    ensures Step(s, m).lost == 0 ==> !Discards(s, m)
  {
    hide Total, Doing;
    if m.PoolStop? {
      PoolStopStrandsIff(s, m.mode);
    }
  }

  lemma {:induction false} RunStrandedIff(s: System, moves: seq<Move>)
    requires Inv(s) && Kept(s) && s.lost == 0 && Possible(s, moves)
    ensures Stranded(Run(s, moves)) <==> StrandedBy(s, moves)
    ensures Kept(Run(s, moves))
    decreases |moves|
  {
    hide Inv, Step, Enabled, Spares, Kept, Discards;
    if moves != [] {
      var next := Step(s, moves[0]);
      StepKeeps(s, moves[0]);
      StepKept(s, moves[0]);
      LosesIff(s, moves[0]);
      if next.lost == 0 {
        RunStrandedIff(next, moves[1..]);
      } else {
        AfterLoss(next, moves[1..]);
        assert forall i :: 0 < i < |moves| ==> moves[i] == moves[1..][i - 1];
        assert forall i :: 0 <= i < |moves| - 1 ==> moves[1..][i] == moves[i + 1];
      }
    }
  }

  /** Exactly when a stop fails. After any posts, stops and work: once no worker can move, a serial executor
      that was told to stop has stopped, unless a pool stop cancelled while its drain was queued with tasks
      behind it and it was not itself told to cancel afterwards. */
  lemma StopFailsIff(serialMax: nat, poolMax: nat, workers: nat, moves: seq<Move>)
    requires workers > 0 && Possible(Executors.Fresh(serialMax, poolMax, workers), moves)
    requires var s := Run(Executors.Fresh(serialMax, poolMax, workers), moves); AtRest(s) && s.serial.life != Running
    ensures var start := Executors.Fresh(serialMax, poolMax, workers);
            Run(start, moves).serial.life != Halted <==> StrandedBy(start, moves)
  {
    hide Run, Step, Total, Doing, StrandedBy, Inv, AtRest;
    var start := Executors.Fresh(serialMax, poolMax, workers);
    FreshInv(serialMax, poolMax, workers);
    RunKeeps(start, moves);
    RunStrandedIff(start, moves);
    RestHaltedIff(Run(start, moves));
  }

  // ---- what callers are told ----

  /** A task is taken exactly while the executor runs, has room and its drain is scheduled or the pool takes it;
      what is not taken changes nothing, except that a stopped pool stops the executor too. */
  lemma PostAnswerIff(s: System, task: nat)
    ensures var (serial, pool, answer) := Post(s.serial, s.pool, task);
            var open := s.serial.life == Running && |s.serial.tasks| < s.serial.max;
            && (answer == Accepted <==> open && (s.serial.scheduled || (s.pool.life == Running && |s.pool.jobs| < s.pool.max)))
            && (answer == Stopped <==> s.serial.life != Running || (open && !s.serial.scheduled && s.pool.life != Running))
            && (answer == Accepted ==>
                  && serial == s.serial.(tasks := s.serial.tasks + [task], scheduled := true)
                  && pool == if s.serial.scheduled then s.pool else s.pool.(jobs := s.pool.jobs + [DrainJob]))
            && (answer != Accepted ==>
                  && pool == s.pool
                  && serial == if open && !s.serial.scheduled && s.pool.life != Running then s.serial.(life := Halted) else s.serial)
  {
  }

  /** The pool takes a job exactly while it runs and has room. */
  lemma SubmitAnswerIff(p: Pool, job: Job)
    ensures var (q, answer) := Submit(p, job);
            && (answer == Accepted <==> p.life == Running && |p.jobs| < p.max) && (answer == Stopped <==> p.life != Running)
            && q == if answer == Accepted then p.(jobs := p.jobs + [job]) else p
  {
  }

  /** Once a stop asks to cancel, or has asked, nothing is pending any more; a draining stop takes nothing away. */
  lemma StopTells(s: System, mode: Mode)
    requires Inv(s) && s.serial.life != Halted
    ensures var t := StopSerial(s.serial, mode);
            var cancel := mode == CancelPending || (s.serial.life == Stopping && s.serial.mode == CancelPending);
            && t.life != Running && (t.mode == CancelPending <==> cancel) && t.tasks == (if cancel then [] else s.serial.tasks)
            && t.cancelled == s.serial.cancelled + |s.serial.tasks| - |t.tasks|
            && (t.life == Halted <==> t.tasks == [] && s.serial.running == 0)
  {
    hide Total, Doing, DrainJobs;
  }

  lemma PoolStopTells(s: System, mode: Mode)
    requires Inv(s) && s.pool.life != Halted
    ensures var q := StopPool(s.pool, mode);
            var cancel := mode == CancelPending || (s.pool.life == Stopping && s.pool.mode == CancelPending);
            && q.life == Stopping && (q.mode == CancelPending <==> cancel) && q.jobs == (if cancel then [] else s.pool.jobs)
            && q.cancelled == s.pool.cancelled + |s.pool.jobs| - |q.jobs|
  {
    hide Total, Doing, DrainJobs;
  }
}
