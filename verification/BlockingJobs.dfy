/** The bounded blocking-job scheduler as a state machine.
    One action is one atomic operation of one thread, so a sequence of enabled
    actions is one interleaving of submitters, workers, cancellers and the
    thread that shuts the scheduler down. */
module BlockingJobs {
  import opened Common

  datatype Outcome = Completed | Cancelled | Panicked

  datatype Rejection = QueueFull | ShuttingDown

  datatype TaskResult = Value(v: int) | TaskCancelled | TaskPanicked

  // Where one `submit_inner` call stands.
  datatype Call =
    | Entered(task: bool)                        // about to read `stopping`
    | Admitted(task: bool)                       // read `stopping == false`
    | HasJob(job: nat)                           // job built, about to clone the sender
    | Holding(job: nat)                          // owns a sender clone
    | Counted(job: nat)                          // `queue_depth` incremented
    | Enqueued(job: nat)                         // `try_send` succeeded
    | SendFailed(job: nat, why: Rejection)       // `try_send` failed, depth not yet rolled back
    | Rejecting(why: Rejection, holds: bool)     // about to count the rejection
    | Accepted(job: nat)                         // returned Ok
    | Rejected(why: Rejection)                   // returned Err
  {
    predicate HoldsSender() {
      Holding? || Counted? || Enqueued? || SendFailed? || (Rejecting? && holds)
    }

    predicate Returned() { Accepted? || Rejected? }

    // Owns a job that is not in the queue yet.
    predicate CarriesUnsent() { HasJob? || Holding? || Counted? }

    // Its job is in the workers' hands.
    predicate CarriesSent() { Enqueued? || Accepted? }
  }

  // Where one worker thread stands.
  datatype Worker =
    | Idle                                       // in `recv`
    | Got(job: nat)                              // received, `queue_depth` not yet decremented
    | Check(job: nat)                            // about to read the job's cancel flag
    | CheckStop(job: nat)                        // cancel flag was clear, about to read `stopping`
    | Running(job: nat)                          // inside the caller's closure
    | TaskCheck(job: nat, v: int)                // task body returned `v`, about to read the cancel flag
    | TaskCheckStop(job: nat, v: int)
    | TaskSend(job: nat, result: TaskResult)
    | PostCheck(job: nat)                        // closure returned, about to re-read the cancel flag
    | PostCheckStop(job: nat)
    | CountPanic(job: nat)                       // closure unwound
    | Deliver(job: nat, outcome: Outcome)        // about to send on `outcome_tx`
    | Notify(job: nat, outcome: Outcome)         // about to call `on_outcome`
    | Exited
  {
    predicate Busy() { !Idle? && !Exited? }
  }

  // Which party owns a job.
  datatype Place = Unsent | Queued | At(worker: nat) | Finished | Dropped {
    predicate Sent() { Queued? || At? || Finished? }
  }

  // A job's shared flags together with the history of what happened to it.
  datatype Job = Job(
    task: bool,
    owner: nat,                // the submitting call
    place: Place,
    cancelled: bool,           // the cancel flag
    starts: nat,               // how often the closure was entered
    returned: Option<int>,     // what a task body returned
    crashed: bool,             // the panic was counted
    armed: bool,               // the one-shot sender is still in its mutex
    future: seq<TaskResult>,   // what was sent on the one-shot
    outcomes: seq<Outcome>,    // what was sent on `outcome_tx`
    notified: seq<Outcome>     // what `on_outcome` was called with
  )

  function NewJob(task: bool, owner: nat): Job {
    Job(task, owner, Unsent, false, 0, None, false, true, [], [], [])
  }

  datatype Phase = Open | Stopping | SenderTaken | Joined

  datatype State = State(
    capacity: nat,
    phase: Phase,
    stopping: bool,
    sender: bool,              // the scheduler still owns its sender
    queue: seq<nat>,
    depth: int,
    submitted: nat,
    rejected: nat,
    panicked: nat,
    calls: seq<Call>,
    workers: seq<Worker>,
    jobs: seq<Job>             // the id counter is the length of this sequence
  )

  datatype Body = Returns(v: int) | Panics

  datatype Action =
    | Submit(task: bool)
    | Advance(call: nat)
    | Work(worker: nat, body: Body)
    | Cancel(job: nat)
    | Shutdown

  function Init(capacity: nat, workers: nat): State {
    State(capacity, Open, false, true, [], 0, 0, 0, 0, [], seq(workers, _ => Idle), [])
  }

  predicate AllExited(s: State) {
    forall w | 0 <= w < |s.workers| :: s.workers[w].Exited?
  }

  // A channel disconnects for its receiver when every sender clone is gone.
  predicate Disconnected(s: State) {
    !s.sender && forall c | 0 <= c < |s.calls| :: !s.calls[c].HoldsSender()
  }

  predicate Enabled(s: State, a: Action) {
    match a
    case Submit(_) => true
    case Advance(c) => c < |s.calls| && !s.calls[c].Returned()
    case Work(w, _) =>
      && w < |s.workers|
      && !s.workers[w].Exited?
      && (s.workers[w].Idle? ==> s.queue != [] || Disconnected(s))
      && (s.workers[w].Busy() ==> s.workers[w].job < |s.jobs|)
    case Cancel(j) => j < |s.jobs|
    case Shutdown => !s.phase.Joined? && (s.phase.SenderTaken? ==> AllExited(s))
  }

  // The next stage of `submit_inner`, given what its one atomic operation reads.
  function CallNext(call: Call, s: State): Call {
    match call
    case Entered(task) => if s.stopping then Rejecting(ShuttingDown, false) else Admitted(task)
    case Admitted(_) => HasJob(|s.jobs|)
    case HasJob(j) => if s.sender then Holding(j) else Rejecting(ShuttingDown, false)
    case Holding(j) => Counted(j)
    case Counted(j) =>
      if AllExited(s) then SendFailed(j, ShuttingDown)
      else if |s.queue| < s.capacity then Enqueued(j)
      else SendFailed(j, QueueFull)
    case Enqueued(j) => Accepted(j)
    case SendFailed(_, why) => Rejecting(why, true)
    case Rejecting(why, _) => Rejected(why)
    case _ => call
  }

  // A job is dropped with the call that fails to hand it over.
  function PlaceAfter(next: Call): Place {
    if next.Enqueued? then Queued else if next.CarriesUnsent() then Unsent else Dropped
  }

  function MovedJobs(jobs: seq<Job>, c: nat, call: Call, next: Call): seq<Job> {
    if call.Admitted? then jobs + [NewJob(call.task, c)]
    else if call.CarriesUnsent() && call.job < |jobs|
    then jobs[call.job := jobs[call.job].(place := PlaceAfter(next))]
    else jobs
  }

  // One atomic operation of `submit_inner`.
  function CallStep(s: State, c: nat): State
    requires Enabled(s, Advance(c))
  {
    var call := s.calls[c];
    var next := CallNext(call, s);
    s.(calls := s.calls[c := next],
       jobs := MovedJobs(s.jobs, c, call, next),
       queue := if next.Enqueued? then s.queue + [next.job] else s.queue,
       depth := if call.Holding? then s.depth + 1 else if call.SendFailed? then s.depth - 1 else s.depth,
       submitted := if next.Accepted? then s.submitted + 1 else s.submitted,
       rejected := if next.Rejected? then s.rejected + 1 else s.rejected)
  }

  // `send_task_result`: the first caller takes the one-shot, later ones find it gone.
  function SendTaskResult(job: Job, result: TaskResult): Job {
    if job.armed then job.(armed := false, future := job.future + [result]) else job
  }

  function OutcomeError(outcome: Outcome): TaskResult {
    if outcome == Panicked then TaskPanicked else TaskCancelled
  }

  function Put(s: State, w: nat, worker: Worker, j: nat, job: Job): State
    requires w < |s.workers| && j < |s.jobs|
  {
    s.(workers := s.workers[w := worker], jobs := s.jobs[j := job])
  }

  // What a busy worker makes of itself and of its job.
  function BusyStep(worker: Worker, job: Job, stopping: bool, body: Body): (Worker, Job)
    requires worker.Busy()
  {
    match worker
    case Got(j) => (Check(j), job)
    case Check(j) => (if job.cancelled then Deliver(j, Cancelled) else CheckStop(j), job)
    case CheckStop(j) =>
      if stopping then (Deliver(j, Cancelled), job)
      else (Running(j), job.(starts := job.starts + 1))
    case Running(j) =>
      (match body
       case Returns(v) =>
         (if job.task then TaskCheck(j, v) else PostCheck(j), job.(returned := Some(v)))
       case Panics => (CountPanic(j), job))
    case TaskCheck(j, v) =>
      (if job.cancelled then TaskSend(j, TaskCancelled) else TaskCheckStop(j, v), job)
    case TaskCheckStop(j, v) =>
      (TaskSend(j, if stopping then TaskCancelled else Value(v)), job)
    case TaskSend(j, result) => (PostCheck(j), SendTaskResult(job, result))
    case PostCheck(j) => (if job.cancelled then Deliver(j, Cancelled) else PostCheckStop(j), job)
    case PostCheckStop(j) => (Deliver(j, if stopping then Cancelled else Completed), job)
    case CountPanic(j) => (Deliver(j, Panicked), job.(crashed := true))
    case Deliver(j, o) => (Notify(j, o), job.(outcomes := job.outcomes + [o]))
    case Notify(j, o) =>
      var told := job.(notified := job.notified + [o], place := Finished);
      (Idle, if job.task then SendTaskResult(told, OutcomeError(o)) else told)
  }

  // One atomic operation of `worker_loop`.
  function WorkerStep(s: State, w: nat, body: Body): State
    requires Enabled(s, Work(w, body))
  {
    var worker := s.workers[w];
    if worker.Idle? then
      if s.queue == [] then s.(workers := s.workers[w := Exited])
      else
        var j := s.queue[0];
        s.(queue := s.queue[1..], workers := s.workers[w := Got(j)],
           jobs := if j < |s.jobs| then s.jobs[j := s.jobs[j].(place := At(w))] else s.jobs)
    else
      var (next, job) := BusyStep(worker, s.jobs[worker.job], s.stopping, body);
      Put(s, w, next, worker.job, job)
      .(depth := if worker.Got? then s.depth - 1 else s.depth,
        panicked := if worker.CountPanic? then s.panicked + 1 else s.panicked)
  }

  function ShutdownStep(s: State): State
    requires Enabled(s, Shutdown)
  {
    match s.phase
    case Open => s.(phase := Stopping, stopping := true)
    case Stopping => s.(phase := SenderTaken, sender := false)
    case _ => s.(phase := Joined)
  }

  function Next(s: State, a: Action): State
    requires Enabled(s, a)
  {
    match a
    case Submit(task) => s.(calls := s.calls + [Entered(task)])
    case Advance(c) => CallStep(s, c)
    case Work(w, body) => WorkerStep(s, w, body)
    case Cancel(j) => s.(jobs := s.jobs[j := s.jobs[j].(cancelled := true)])
    case Shutdown => ShutdownStep(s)
  }

  predicate Valid(s: State, run: seq<Action>)
    decreases |run|
  {
    run == [] || (Enabled(s, run[0]) && Valid(Next(s, run[0]), run[1..]))
  }

  function Exec(s: State, run: seq<Action>): State
    requires Valid(s, run)
    decreases |run|
  {
    if run == [] then s else Exec(Next(s, run[0]), run[1..])
  }

  ghost predicate Reachable(s: State) {
    exists capacity: nat, workers: nat, run: seq<Action> ::
      Starts(capacity, workers, run) && Exec(Init(capacity, workers), run) == s
  }

  // `with_limits` asserts that both limits are positive.
  ghost predicate Starts(capacity: nat, workers: nat, run: seq<Action>) {
    capacity > 0 && workers > 0 && Valid(Init(capacity, workers), run)
  }
}
