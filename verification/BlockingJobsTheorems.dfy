/** The scheduler's promises, for every interleaving. */
module BlockingJobsTheorems {
  import opened Common
  import opened BlockingJobs
  import opened BlockingJobsProofs
  import opened BlockingJobsFlags

  // ----- each job runs at most once and is reported at most once

  ghost predicate AtMostOnce(s: State) {
    forall j: nat | j < |s.jobs| ::
      && s.jobs[j].starts <= 1
      && |s.jobs[j].outcomes| <= 1
      && |s.jobs[j].future| <= 1
      && s.jobs[j].notified <= s.jobs[j].outcomes
      && (!s.jobs[j].place.Sent() ==> s.jobs[j].starts == 0 && s.jobs[j].outcomes == [])
  }

  lemma EveryJobRunsAtMostOnce(s: State)
    requires Reachable(s)
    ensures AtMostOnce(s)
  {
    ReachableInv(s);
    forall j: nat | j < |s.jobs|
      ensures s.jobs[j].starts <= 1 && |s.jobs[j].outcomes| <= 1 && |s.jobs[j].future| <= 1
      ensures s.jobs[j].notified <= s.jobs[j].outcomes
      ensures !s.jobs[j].place.Sent() ==> s.jobs[j].starts == 0 && s.jobs[j].outcomes == []
    {
      assert JobOk(s, s.jobs[j]);
    }
  }

  // ----- the queue-depth metric

  lemma DepthCountsWaitingJobs(s: State)
    requires Reachable(s)
    ensures s.depth == |s.queue| + |Where(s.calls, InFlight)| + |Where(s.workers, Undecremented)|
    ensures s.depth >= 0 && |s.queue| <= s.capacity
    ensures forall c | 0 <= c < |s.calls| && s.calls[c].SendFailed? :: s.depth > 0
    ensures forall w | 0 <= w < |s.workers| && s.workers[w].Got? :: s.depth > 0
  {
    ReachableInv(s);
    forall c | 0 <= c < |s.calls| && s.calls[c].SendFailed? ensures s.depth > 0 {
      assert c in Where(s.calls, InFlight);
    }
    forall w | 0 <= w < |s.workers| && s.workers[w].Got? ensures s.depth > 0 {
      assert w in Where(s.workers, Undecremented);
    }
  }

  ghost predicate AllReturned(s: State) {
    forall c | 0 <= c < |s.calls| :: s.calls[c].Returned()
  }

  ghost predicate Quiet(s: State) {
    AllReturned(s) && s.queue == [] && forall w | 0 <= w < |s.workers| :: !s.workers[w].Busy()
  }

  predicate HasOutcome(job: Job) { job.outcomes != [] }

  predicate HasPanicked(job: Job) { job.outcomes == [Panicked] }

  // At rest the metrics balance: every call was answered, every accepted job was reported.
  lemma MetricsBalanceAtRest(s: State)
    requires Reachable(s) && Quiet(s)
    ensures s.depth == 0
    ensures s.submitted + s.rejected == |s.calls|
    ensures s.submitted == |Where(s.jobs, HasOutcome)|
    ensures s.panicked == |Where(s.jobs, HasPanicked)|
  {
    ReachableInv(s);
    assert Where(s.calls, InFlight) == {} && Where(s.workers, Undecremented) == {};
    assert Where(s.calls, IsEnqueued) == {};
    WherePartition(s.calls, IsAccepted, IsRejected);
    RestingJobs(s);
    assert Where(s.jobs, IsSent) == Where(s.jobs, HasOutcome);
    assert Where(s.jobs, IsCrashed) == Where(s.jobs, HasPanicked);
  }

  lemma RestingJobs(s: State)
    requires Inv(s) && s.queue == [] && forall w | 0 <= w < |s.workers| :: !s.workers[w].Busy()
    ensures forall j: nat | j < |s.jobs| :: s.jobs[j].place.Sent() ==> s.jobs[j].place.Finished?
    ensures forall j: nat | j < |s.jobs| :: s.jobs[j].place.Sent() <==> HasOutcome(s.jobs[j])
    ensures forall j: nat | j < |s.jobs| :: s.jobs[j].crashed <==> HasPanicked(s.jobs[j])
    ensures forall j: nat | j < |s.jobs| && s.jobs[j].place.Finished? ::
              |s.jobs[j].outcomes| == 1 && Settled(s.jobs[j], s.jobs[j].outcomes[0])
  {
    forall j: nat | j < |s.jobs|
      ensures s.jobs[j].place.Sent() ==> s.jobs[j].place.Finished?
      ensures s.jobs[j].place.Sent() <==> HasOutcome(s.jobs[j])
      ensures s.jobs[j].crashed <==> HasPanicked(s.jobs[j])
      ensures s.jobs[j].place.Finished? ==> |s.jobs[j].outcomes| == 1 && Settled(s.jobs[j], s.jobs[j].outcomes[0])
    {
      assert JobOk(s, s.jobs[j]);
    }
  }

  // ----- shutdown

  // What holds of an accepted job once it is through.
  predicate Served(job: Job) {
    && |job.outcomes| == 1
    && job.notified == job.outcomes
    && (job.task ==> |job.future| == 1)
  }

  // When the last worker is gone nothing is left behind, whoever raced the shutdown.
  lemma ExitedMeansDrained(s: State)
    requires Reachable(s) && AllExited(s)
    ensures s.queue == [] && s.stopping && !s.sender
    ensures forall c: nat | c < |s.calls| :: !s.calls[c].HoldsSender()
    ensures forall c: nat | c < |s.calls| && s.calls[c].Accepted? ::
              s.calls[c].job < |s.jobs| && Served(s.jobs[s.calls[c].job])
  {
    ReachableInv(s);
    assert s.workers[0].Exited?;
    RestingJobs(s);
  }

  // A submitter that reaches `try_send` always finds a live receiver, so the
  // `Disconnected` arm is never taken and `QueueFull` means what it says.
  lemma TrySendNeverDisconnected(s: State, c: nat)
    requires Reachable(s) && c < |s.calls| && s.calls[c].Counted?
    ensures !AllExited(s)
    ensures var t := CallStep(s, c);
            if |s.queue| < s.capacity
            then t.calls[c] == Enqueued(s.calls[c].job) && t.queue == s.queue + [s.calls[c].job]
            else t.calls[c] == SendFailed(s.calls[c].job, QueueFull) && t.queue == s.queue
  {
    ReachableInv(s);
    if AllExited(s) {
      assert s.workers[0].Exited?;
      assert s.calls[c].HoldsSender();
    }
  }

  // ----- cancellation

  // The worker has not yet read a flag that is set.
  predicate Flagged(s: State, j: nat)
    requires j < |s.jobs|
  {
    var job := s.jobs[j];
    match job.place
    case Unsent => job.cancelled || s.stopping
    case Queued => job.cancelled || s.stopping
    case At(w) =>
      && w < |s.workers|
      && (((s.workers[w].Got? || s.workers[w].Check?) && (job.cancelled || s.stopping))
          || (s.workers[w].CheckStop? && s.stopping))
    case _ => false
  }

  // A flagged job's whole future: it is refused, or waits, or is reported as cancelled.
  predicate Doomed(s: State, j: nat)
    requires j < |s.jobs|
  {
    var job := s.jobs[j];
    && job.starts == 0
    && job.outcomes <= [Cancelled]
    && (Flagged(s, j) || job.place.Dropped? || job.place.Finished?
        || (job.place.At? && job.place.worker < |s.workers|
            && (s.workers[job.place.worker] == Deliver(j, Cancelled)
                || s.workers[job.place.worker] == Notify(j, Cancelled))))
  }

  lemma DoomedCall(s: State, c: nat, j: nat)
    requires CallInv(s) && Enabled(s, Advance(c)) && j < |s.jobs| && Doomed(s, j)
    ensures j < |CallStep(s, c).jobs| && Doomed(CallStep(s, c), j)
  {
    CallShape(s, c);
    var t := CallStep(s, c);
    if s.calls[c].CarriesUnsent() && s.calls[c].job == j {
      assert t.jobs[j].place.Unsent? || t.jobs[j].place.Queued? || t.jobs[j].place.Dropped?;
    } else {
      DoomedFrame(s, t, j);
    }
  }

  lemma DoomedFrame(s: State, t: State, j: nat)
    requires j < |s.jobs| && j < |t.jobs| && t.jobs[j] == s.jobs[j] && Doomed(s, j)
    requires t.stopping == s.stopping && |t.workers| == |s.workers|
    requires s.jobs[j].place.At? && s.jobs[j].place.worker < |s.workers| ==>
               t.workers[s.jobs[j].place.worker] == s.workers[s.jobs[j].place.worker]
    ensures Doomed(t, j)
  {
  }

  // The worker that holds a doomed job can only report it.
  lemma DoomedBusy(worker: Worker, job: Job, stopping: bool, body: Body)
    requires worker.Busy() && PhaseOk(job, worker, stopping) && job.starts == 0 && job.outcomes <= [Cancelled]
    requires ((worker.Got? || worker.Check?) && (job.cancelled || stopping)) || (worker.CheckStop? && stopping)
          || worker == Deliver(worker.job, Cancelled) || worker == Notify(worker.job, Cancelled)
    ensures var (next, job') := BusyStep(worker, job, stopping, body);
            && job'.starts == 0 && job'.outcomes <= [Cancelled] && job'.cancelled == job.cancelled
            && (next.Busy() ==>
                  || (next.Check? && (job.cancelled || stopping)) || (next.CheckStop? && stopping)
                  || next == Deliver(worker.job, Cancelled) || next == Notify(worker.job, Cancelled))
  {
  }

  lemma DoomedWork(s: State, w: nat, body: Body, j: nat)
    requires QueueInv(s) && WorkerInv(s) && JobInv(s)
    requires Enabled(s, Work(w, body)) && j < |s.jobs| && Doomed(s, j)
    ensures j < |WorkerStep(s, w, body).jobs| && Doomed(WorkerStep(s, w, body), j)
  {
    var t := WorkerStep(s, w, body);
    if s.workers[w].Busy() {
      BusyShape(s, w, body);
      if s.workers[w].job == j {
        DoomedBusy(s.workers[w], s.jobs[j], s.stopping, body);
      } else {
        DoomedFrame(s, t, j);
      }
    } else if s.queue != [] && s.queue[0] == j {
      assert t.jobs[j] == s.jobs[j].(place := At(w)) && t.workers[w] == Got(j);
    } else {
      DoomedFrame(s, t, j);
    }
  }

  lemma DoomedStep(s: State, a: Action, j: nat)
    requires Inv(s) && Enabled(s, a) && j < |s.jobs| && Doomed(s, j)
    ensures j < |Next(s, a).jobs| && Doomed(Next(s, a), j)
  {
    match a {
      case Advance(c) => DoomedCall(s, c, j);
      case Work(w, body) => DoomedWork(s, w, body, j);
      case _ =>
    }
  }

  lemma {:induction false} DoomedRun(s: State, run: seq<Action>, j: nat)
    requires Inv(s) && Valid(s, run) && j < |s.jobs| && Doomed(s, j)
    ensures j < |Exec(s, run).jobs| && Doomed(Exec(s, run), j)
    decreases |run|
  {
    if run != [] {
      DoomedStep(s, run[0], j);
      StepKeeps(s, run[0]);
      DoomedRun(Next(s, run[0]), run[1..], j);
    }
  }

  // If a flag is up before the worker reads it, the closure never runs.
  lemma CancelledBeforeCheckNeverRuns(s: State, run: seq<Action>, j: nat)
    requires Reachable(s) && Valid(s, run) && j < |s.jobs| && Flagged(s, j)
    ensures j < |Exec(s, run).jobs|
    ensures Exec(s, run).jobs[j].starts == 0
    ensures Exec(s, run).jobs[j].outcomes <= [Cancelled]
  {
    ReachableInv(s);
    assert JobOk(s, s.jobs[j]);
    DoomedRun(s, run, j);
  }

  // ----- task futures

  // How an outcome and a task's future fit together once the job is through.
  predicate Agree(job: Job)
    requires |job.outcomes| == 1 && |job.future| == 1
  {
    match job.outcomes[0]
    case Completed => job.returned.Some? && job.future[0] == Value(job.returned.value)
    case Panicked => job.future[0] == TaskPanicked
    case Cancelled => job.future[0] == TaskCancelled
                      || (job.returned.Some? && job.future[0] == Value(job.returned.value))
  }

  lemma TaskFutureAgreesWithOutcome(s: State, j: nat)
    requires Reachable(s) && j < |s.jobs| && s.jobs[j].task && s.jobs[j].place.Finished?
    ensures |s.jobs[j].outcomes| == 1 && |s.jobs[j].future| == 1 && Agree(s.jobs[j])
    ensures s.jobs[j].outcomes[0] == Completed ==> s.jobs[j].starts == 1
    ensures s.jobs[j].outcomes[0] == Panicked <==> s.jobs[j].crashed
    ensures s.jobs[j].outcomes[0] == Cancelled ==> s.jobs[j].cancelled || s.stopping
    ensures s.jobs[j].future[0] == TaskCancelled ==> s.jobs[j].cancelled || s.stopping
  {
    ReachableInv(s);
    assert JobOk(s, s.jobs[j]);
    if Cancelled in s.jobs[j].outcomes || TaskCancelled in s.jobs[j].future { CancelledNeedsFlag(s, j); }
  }

  // With both flags down, a job that did not panic ran once and completed, and a task's future is Ok.
  lemma UnflaggedJobCompletes(s: State, j: nat)
    requires Reachable(s) && j < |s.jobs| && s.jobs[j].place.Finished?
    requires !s.jobs[j].cancelled && !s.stopping && !s.jobs[j].crashed
    ensures s.jobs[j].outcomes == [Completed] && s.jobs[j].notified == [Completed] && s.jobs[j].starts == 1
    ensures s.jobs[j].task ==>
              s.jobs[j].returned.Some? && s.jobs[j].future == [Value(s.jobs[j].returned.value)]
  {
    ReachableInv(s);
    assert JobOk(s, s.jobs[j]);
    if Cancelled in s.jobs[j].outcomes { CancelledNeedsFlag(s, j); }
  }

  // An Ok future goes with Completed exactly when both checks after the closure found their flag down.
  lemma OkFutureCompletesIff(capacity: nat, workers: nat, run: seq<Action>, j: nat)
    requires Starts(capacity, workers, run) && j < |Exec(Init(capacity, workers), run).jobs|
    requires var job := Exec(Init(capacity, workers), run).jobs[j];
             job.task && job.place.Finished? && |job.future| == 1 && job.future[0].Value?
    ensures Exec(Init(capacity, workers), run).jobs[j].outcomes == [Completed]
            <==> Clear(Reads(Init(capacity, workers), run, j).after)
  {
    var s := Exec(Init(capacity, workers), run);
    assert Reachable(s);
    TaskFutureAgreesWithOutcome(s, j);
    OutcomeFollowsChecks(capacity, workers, run, j);
  }

  // A job runs exactly when both reads before it found their flag down, and a task that returned
  // has an Ok future exactly when both reads after its body did.
  lemma ChecksDecide(capacity: nat, workers: nat, run: seq<Action>, j: nat)
    requires Starts(capacity, workers, run) && j < |Exec(Init(capacity, workers), run).jobs|
    requires Exec(Init(capacity, workers), run).jobs[j].place.Finished?
    ensures var job, seen := Exec(Init(capacity, workers), run).jobs[j], Reads(Init(capacity, workers), run, j);
            && (job.starts == 1 <==> Clear(seen.before)) && (job.starts == 0 <==> Raised(seen.before))
            && (job.task && job.returned.Some? ==>
                  && (job.future == [Value(job.returned.value)] <==> Clear(seen.task))
                  && (job.future == [TaskCancelled] <==> Raised(seen.task)))
  {
    OutcomeFollowsChecks(capacity, workers, run, j);
  }

  // ----- a late cancel

  lemma ReachableStep(s: State, a: Action) returns (t: State)
    requires Reachable(s) && Enabled(s, a)
    ensures t == Next(s, a) && Reachable(t)
  {
    var capacity: nat, workers: nat, run :| Starts(capacity, workers, run) && Exec(Init(capacity, workers), run) == s;
    ValidAppend(Init(capacity, workers), run, a);
    assert Starts(capacity, workers, run + [a]);
    t := Next(s, a);
  }

  // The state of a one-worker scheduler with a single task.
  function OneTask(call: Call, depth: int, queue: seq<nat>, worker: Worker, job: Job): State {
    State(1, Open, false, true, queue, depth, 0, 0, 0, [call], [worker], [job])
  }

  lemma OfferedTask() returns (s: State)
    ensures Reachable(s) && s == OneTask(HasJob(0), 0, [], Idle, NewJob(true, 0))
  {
    s := Init(1, 1);
    assert Starts(1, 1, []) && s == State(1, Open, false, true, [], 0, 0, 0, 0, [], [Idle], []);
    s := ReachableStep(s, Submit(true));
    s := ReachableStep(s, Advance(0));
    s := ReachableStep(s, Advance(0));
  }

  lemma CountedTask() returns (s: State)
    ensures Reachable(s) && s == OneTask(Counted(0), 1, [], Idle, NewJob(true, 0))
  {
    s := OfferedTask();
    s := ReachableStep(s, Advance(0));
    s := ReachableStep(s, Advance(0));
  }

  lemma QueuedTask() returns (s: State)
    ensures Reachable(s)
    ensures s == OneTask(Enqueued(0), 1, [0], Idle, NewJob(true, 0).(place := Queued))
  {
    s := CountedTask();
    assert !s.workers[0].Exited?;
    s := ReachableStep(s, Advance(0));
  }

  lemma TaskStep(worker: Worker, job: Job, body: Body) returns (next: Worker, job': Job)
    requires Reachable(OneTask(Enqueued(0), 0, [], worker, job))
    requires worker.Busy() && worker.job == 0 && !worker.Got? && !worker.CountPanic?
    ensures (next, job') == BusyStep(worker, job, false, body)
    ensures Reachable(OneTask(Enqueued(0), 0, [], next, job'))
  {
    var s := ReachableStep(OneTask(Enqueued(0), 0, [], worker, job), Work(0, body));
    next, job' := s.workers[0], s.jobs[0];
    assert s == OneTask(Enqueued(0), 0, [], next, job');
  }

  lemma TaskCancel(worker: Worker, job: Job) returns (job': Job)
    requires Reachable(OneTask(Enqueued(0), 0, [], worker, job))
    ensures job' == job.(cancelled := true) && Reachable(OneTask(Enqueued(0), 0, [], worker, job'))
  {
    var s := ReachableStep(OneTask(Enqueued(0), 0, [], worker, job), Cancel(0));
    job' := s.jobs[0];
    assert s == OneTask(Enqueued(0), 0, [], worker, job');
  }

  lemma TakenTask()
    ensures Reachable(OneTask(Enqueued(0), 0, [], Check(0), NewJob(true, 0).(place := At(0))))
  {
    var s := QueuedTask();
    s := ReachableStep(s, Work(0, Panics));
    s := ReachableStep(s, Work(0, Panics));
    assert s == OneTask(Enqueued(0), 0, [], Check(0), NewJob(true, 0).(place := At(0)));
  }

  lemma RunningTask() returns (worker: Worker, job: Job)
    ensures worker == Running(0) && job == NewJob(true, 0).(place := At(0), starts := 1)
    ensures Reachable(OneTask(Enqueued(0), 0, [], worker, job))
  {
    TakenTask();
    job := NewJob(true, 0).(place := At(0));
    worker, job := TaskStep(Check(0), job, Panics);
    worker, job := TaskStep(worker, job, Panics);
  }

  // A task that was entered, returned 42 and answered its future.
  function Answered(): Job {
    Job(true, 0, At(0), false, 1, Some(42), false, false, [Value(42)], [], [])
  }

  lemma ReturnedTask() returns (job: Job)
    ensures job == NewJob(true, 0).(place := At(0), starts := 1, returned := Some(42))
    ensures Reachable(OneTask(Enqueued(0), 0, [], TaskCheckStop(0, 42), job))
  {
    var w, j := RunningTask();
    w, j := TaskStep(w, j, Returns(42));
    assert w == TaskCheck(0, 42) && !j.cancelled;
    w, job := TaskStep(w, j, Panics);
  }

  lemma AnsweredTask()
    ensures Reachable(OneTask(Enqueued(0), 0, [], PostCheck(0), Answered()))
  {
    var j := ReturnedTask();
    var w;
    w, j := TaskStep(TaskCheckStop(0, 42), j, Panics);
    assert w == TaskSend(0, Value(42));
    w, j := TaskStep(w, j, Panics);
    assert w == PostCheck(0) && j == Answered();
  }

  // An Ok future does not imply a Completed outcome: a cancel may land between
  // a task's own check and the worker's.
  lemma OkFutureMayBeCancelled() returns (s: State)
    ensures Reachable(s) && |s.jobs| == 1 && s.jobs[0].place.Finished?
    ensures s.jobs[0].future == [Value(42)] && s.jobs[0].outcomes == [Cancelled]
  {
    AnsweredTask();
    var j := TaskCancel(PostCheck(0), Answered());
    var w;
    w, j := TaskStep(PostCheck(0), j, Panics);
    assert w == Deliver(0, Cancelled);
    w, j := TaskStep(w, j, Panics);
    assert w == Notify(0, Cancelled) && j.outcomes == [Cancelled];
    w, j := TaskStep(w, j, Panics);
    s := OneTask(Enqueued(0), 0, [], w, j);
  }

  // ----- shutdown terminates

  // Operations still ahead of a call, a worker and the shutdown thread. A call that
  // may still enqueue pays for the worker's operations on its job.
  function CallRank(call: Call): nat {
    match call
    case Entered(_) => 22
    case Admitted(_) => 21
    case HasJob(_) => 20
    case Holding(_) => 19
    case Counted(_) => 18
    case Enqueued(_) => 1
    case SendFailed(_, _) => 2
    case Rejecting(_, _) => 1
    case _ => 0
  }

  function WorkerRank(worker: Worker): nat {
    match worker
    case Got(_) => 13
    case Check(_) => 12
    case CheckStop(_) => 11
    case Running(_) => 10
    case TaskCheck(_, _) => 9
    case TaskCheckStop(_, _) => 8
    case TaskSend(_, _) => 7
    case PostCheck(_) => 6
    case PostCheckStop(_) => 5
    case CountPanic(_) => 4
    case Deliver(_, _) => 3
    case Notify(_, _) => 2
    case Idle => 1
    case Exited => 0
  }

  function PhaseRank(phase: Phase): nat {
    match phase case Open => 3 case Stopping => 2 case SenderTaken => 1 case Joined => 0
  }

  function Remaining(s: State): nat {
    Total(s.calls, CallRank) + Total(s.workers, WorkerRank) + 13 * |s.queue| + PhaseRank(s.phase)
  }

  // Everything but the arrival of new calls; cancelling costs nothing.
  predicate Internal(a: Action) { a.Advance? || a.Work? || a.Shutdown? }

  lemma CallDescends(s: State, c: nat)
    requires CallInv(s) && Enabled(s, Advance(c))
    ensures var t := CallStep(s, c);
            CallRank(t.calls[c]) + 13 * |t.queue| < CallRank(s.calls[c]) + 13 * |s.queue|
  {
  }

  lemma WorkerDescends(s: State, w: nat, body: Body)
    requires Enabled(s, Work(w, body))
    ensures var t := WorkerStep(s, w, body);
            && WorkerRank(t.workers[w]) + 13 * |t.queue| < WorkerRank(s.workers[w]) + 13 * |s.queue|
            && t.calls == s.calls && t.phase == s.phase && t.workers == s.workers[w := t.workers[w]]
  {
  }

  lemma InternalStepDescends(s: State, a: Action)
    requires CallInv(s) && Enabled(s, a) && Internal(a)
    ensures Remaining(Next(s, a)) < Remaining(s)
  {
    match a
    case Advance(c) =>
      CallShape(s, c);
      CallDescends(s, c);
      TotalUpdate(s.calls, CallRank, c, CallStep(s, c).calls[c]);
    case Work(w, body) =>
      WorkerDescends(s, w, body);
      TotalUpdate(s.workers, WorkerRank, w, WorkerStep(s, w, body).workers[w]);
    case Shutdown =>
  }

  function Operations(run: seq<Action>): nat {
    if run == [] then 0 else (if Internal(run[0]) then 1 else 0) + Operations(run[1..])
  }

  // No run without new calls takes more than `Remaining` operations.
  lemma {:induction false} ShutdownTakesBoundedSteps(s: State, run: seq<Action>)
    requires Inv(s) && Valid(s, run) && forall i | 0 <= i < |run| :: !run[i].Submit?
    ensures Operations(run) + Remaining(Exec(s, run)) <= Remaining(s)
    decreases |run|
  {
    if run != [] {
      if Internal(run[0]) { InternalStepDescends(s, run[0]); }
      StepKeeps(s, run[0]);
      ShutdownTakesBoundedSteps(Next(s, run[0]), run[1..]);
    }
  }

  // And such a run can only stop when shutdown has joined every worker.
  lemma NoDeadlock(s: State)
    requires Reachable(s) && forall a | Internal(a) :: !Enabled(s, a)
    ensures s.phase.Joined? && AllExited(s) && AllReturned(s)
  {
    ReachableInv(s);
    assert !Enabled(s, Shutdown);
    forall c: nat | c < |s.calls| ensures s.calls[c].Returned() { assert !Enabled(s, Advance(c)); }
    forall w: nat | w < |s.workers| ensures s.workers[w].Exited? {
      assert !Enabled(s, Work(w, Panics));
      StuckWorker(s, w);
    }
  }

  // With every call returned and the sender gone, a worker can always go on.
  lemma StuckWorker(s: State, w: nat)
    requires Inv(s) && AllReturned(s) && (s.phase.SenderTaken? || s.phase.Joined?)
    requires w < |s.workers| && !Enabled(s, Work(w, Panics))
    ensures s.workers[w].Exited?
  {
    assert Disconnected(s);
  }

  lemma {:induction false} ReachableRun(s: State, run: seq<Action>)
    requires Reachable(s) && Valid(s, run)
    ensures Reachable(Exec(s, run))
    decreases |run|
  {
    if run != [] {
      var t := ReachableStep(s, run[0]);
      ReachableRun(t, run[1..]);
    }
  }

  // Together: from any reachable state, a run without new calls that can go no further
  // has been bounded, has joined every worker and has served every accepted job.
  lemma ShutdownCompletes(s: State, run: seq<Action>)
    requires Reachable(s) && Valid(s, run) && forall i | 0 <= i < |run| :: !run[i].Submit?
    requires forall a | Internal(a) :: !Enabled(Exec(s, run), a)
    ensures Operations(run) <= Remaining(s)
    ensures var t := Exec(s, run);
            && t.phase.Joined? && AllExited(t) && AllReturned(t) && t.queue == []
            && forall c: nat | c < |t.calls| && t.calls[c].Accepted? ::
                 t.calls[c].job < |t.jobs| && Served(t.jobs[t.calls[c].job])
  {
    ReachableInv(s);
    ShutdownTakesBoundedSteps(s, run);
    ReachableRun(s, run);
    NoDeadlock(Exec(s, run));
    ExitedMeansDrained(Exec(s, run));
  }
}
