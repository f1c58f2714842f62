/** What every interleaving of the scheduler keeps. */
module BlockingJobsProofs {
  import opened Common
  import opened BlockingJobs

  // ----- the invariant, one concern at a time

  ghost predicate QueueInv(s: State) {
    && |s.queue| <= s.capacity
    && (forall i | 0 <= i < |s.queue| ::
          s.queue[i] < |s.jobs| && s.jobs[s.queue[i]].place.Queued?)
    && (forall i, k | 0 <= i < k < |s.queue| :: s.queue[i] != s.queue[k])
    && (forall j | 0 <= j < |s.jobs| :: s.jobs[j].place.Queued? ==> j in s.queue)
  }

  ghost predicate WorkerInv(s: State) {
    && |s.workers| > 0
    && (forall w: nat | w < |s.workers| && s.workers[w].Busy() ::
          s.workers[w].job < |s.jobs| && s.jobs[s.workers[w].job].place == At(w))
    && (forall j: nat | j < |s.jobs| && s.jobs[j].place.At? ::
          && s.jobs[j].place.worker < |s.workers|
          && s.workers[s.jobs[j].place.worker].Busy()
          && s.workers[s.jobs[j].place.worker].job == j)
  }

  ghost predicate CallInv(s: State) {
    && (forall c: nat | c < |s.calls| && s.calls[c].CarriesUnsent() ::
          s.calls[c].job < |s.jobs| && s.jobs[s.calls[c].job].owner == c
          && s.jobs[s.calls[c].job].place.Unsent?)
    && (forall c: nat | c < |s.calls| && s.calls[c].CarriesSent() ::
          s.calls[c].job < |s.jobs| && s.jobs[s.calls[c].job].owner == c
          && s.jobs[s.calls[c].job].place.Sent())
    && (forall j: nat | j < |s.jobs| :: s.jobs[j].owner < |s.calls|)
    && (forall j: nat | j < |s.jobs| && s.jobs[j].place.Sent() ::
          s.calls[s.jobs[j].owner].CarriesSent() && s.calls[s.jobs[j].owner].job == j)
  }

  // Nothing has happened to the job yet.
  predicate Fresh(job: Job) {
    job.starts == 0 && job.returned.None? && !job.crashed && job.armed
    && job.future == [] && job.outcomes == [] && job.notified == []
  }

  // The closure was entered once and nothing was reported yet.
  predicate Started(job: Job) {
    job.starts == 1 && !job.crashed && job.outcomes == [] && job.notified == []
  }

  predicate Unresolved(job: Job) { job.armed && job.future == [] }

  // The closure ran to its end; a task has put its result on the one-shot.
  predicate RanThrough(job: Job, flagged: bool) {
    && job.starts == 1 && job.returned.Some? && !job.crashed
    && (job.task ==>
          && !job.armed && |job.future| == 1
          && (job.future[0] == Value(job.returned.value)
              || (job.future[0] == TaskCancelled && flagged)))
    && (!job.task ==> Unresolved(job))
  }

  // What `outcome` says about the history that led to it.
  predicate Explains(job: Job, outcome: Outcome) {
    match outcome
    case Completed =>
      RanThrough(job, false)
    case Cancelled =>
      (job.starts == 0 && job.returned.None? && !job.crashed && Unresolved(job)) || RanThrough(job, true)
    case Panicked =>
      job.starts == 1 && job.returned.None? && job.crashed && Unresolved(job)
  }

  // The same once `on_outcome` has run: a task's future is settled.
  predicate Settled(job: Job, outcome: Outcome) {
    && job.outcomes == [outcome] && job.notified == [outcome]
    && job.starts <= 1
    && (job.starts == 0 ==> outcome == Cancelled)
    && job.crashed == (outcome == Panicked)
    && (!job.task ==> job.future == [])
    && (job.task ==>
         && !job.armed && |job.future| == 1
         && match outcome
            case Completed => job.returned.Some? && job.future[0] == Value(job.returned.value)
            case Panicked => job.future[0] == TaskPanicked
            case Cancelled => job.future[0] == TaskCancelled
                              || (job.returned.Some? && job.future[0] == Value(job.returned.value)))
  }

  predicate PhaseOk(job: Job, worker: Worker, stopping: bool) {
    match worker
    case Got(_) => Fresh(job)
    case Check(_) => Fresh(job)
    case CheckStop(_) => Fresh(job)
    case Running(_) => Started(job) && job.returned.None? && Unresolved(job)
    case TaskCheck(_, v) => job.task && Started(job) && job.returned == Some(v) && Unresolved(job)
    case TaskCheckStop(_, v) => job.task && Started(job) && job.returned == Some(v) && Unresolved(job)
    case TaskSend(_, r) =>
      && job.task && Started(job) && job.returned.Some? && Unresolved(job)
      && (r == Value(job.returned.value) || (r == TaskCancelled && (job.cancelled || stopping)))
    case PostCheck(_) => Started(job) && RanThrough(job, job.cancelled || stopping)
    case PostCheckStop(_) => Started(job) && RanThrough(job, stopping)
    case CountPanic(_) => Started(job) && job.returned.None? && Unresolved(job)
    case Deliver(_, o) => Explains(job, o) && job.outcomes == [] && job.notified == []
    case Notify(_, o) => Explains(job, o) && job.outcomes == [o] && job.notified == []
    case _ => false
  }

  ghost predicate JobOk(s: State, job: Job) {
    match job.place
    case At(w) => w < |s.workers| && PhaseOk(job, s.workers[w], s.stopping)
    case Finished => |job.outcomes| == 1 && Settled(job, job.outcomes[0])
    case _ => Fresh(job)
  }

  ghost predicate JobInv(s: State) {
    forall j: nat | j < |s.jobs| :: JobOk(s, s.jobs[j])
  }

  // The first worker can only leave once nothing can arrive any more.
  ghost predicate ExitInv(s: State) {
    && (!s.sender ==> s.stopping)
    && ((s.phase.Open? || s.phase.Stopping?) <==> s.sender)
    && (s.phase.Open? <==> !s.stopping)
    && ((exists w :: 0 <= w < |s.workers| && s.workers[w].Exited?) ==> Disconnected(s) && s.queue == [])
    && (s.phase.Joined? ==> AllExited(s))
  }

  predicate InFlight(call: Call) { call.Counted? || call.SendFailed? }

  predicate Undecremented(worker: Worker) { worker.Got? }

  predicate IsAccepted(call: Call) { call.Accepted? }

  predicate IsRejected(call: Call) { call.Rejected? }

  predicate IsEnqueued(call: Call) { call.Enqueued? }

  predicate IsSent(job: Job) { job.place.Sent() }

  predicate IsCrashed(job: Job) { job.crashed }

  ghost predicate DepthInv(s: State) {
    s.depth == |s.queue| + |Where(s.calls, InFlight)| + |Where(s.workers, Undecremented)|
  }

  ghost predicate MetricsInv(s: State) {
    && s.submitted == |Where(s.calls, IsAccepted)|
    && s.rejected == |Where(s.calls, IsRejected)|
    && s.submitted + |Where(s.calls, IsEnqueued)| == |Where(s.jobs, IsSent)|
    && s.panicked == |Where(s.jobs, IsCrashed)|
  }

  ghost predicate Inv(s: State) {
    QueueInv(s) && WorkerInv(s) && CallInv(s) && JobInv(s) && ExitInv(s) && DepthInv(s) && MetricsInv(s)
  }

  // ----- preservation

  lemma InitInv(capacity: nat, workers: nat)
    requires workers > 0
    ensures Inv(Init(capacity, workers))
  {
    var s := Init(capacity, workers);
    assert Where(s.calls, InFlight) == {} && Where(s.workers, Undecremented) == {};
    assert Where(s.calls, IsAccepted) == {} && Where(s.calls, IsRejected) == {};
    assert Where(s.calls, IsEnqueued) == {} && Where(s.jobs, IsSent) == {} && Where(s.jobs, IsCrashed) == {};
  }

  lemma JobCounts(s: State, j: nat, job: Job)
    requires j < |s.jobs|
    ensures |Where(s.jobs[j := job], IsSent)| == |Where(s.jobs, IsSent)|
              - (if IsSent(s.jobs[j]) then 1 else 0) + (if IsSent(job) then 1 else 0)
    ensures |Where(s.jobs[j := job], IsCrashed)| == |Where(s.jobs, IsCrashed)|
              - (if IsCrashed(s.jobs[j]) then 1 else 0) + (if IsCrashed(job) then 1 else 0)
  {
    WhereUpdate(s.jobs, IsSent, j, job);
    WhereUpdate(s.jobs, IsCrashed, j, job);
  }

  lemma SubmitKeepsCounts(s: State, task: bool)
    requires DepthInv(s) && MetricsInv(s)
    ensures DepthInv(Next(s, Submit(task))) && MetricsInv(Next(s, Submit(task)))
  {
    var call := Entered(task);
    WhereAppend(s.calls, InFlight, call);
    WhereAppend(s.calls, IsAccepted, call);
    WhereAppend(s.calls, IsRejected, call);
    WhereAppend(s.calls, IsEnqueued, call);
  }

  lemma SubmitKeepsJobs(s: State, task: bool)
    requires JobInv(s)
    ensures JobInv(Next(s, Submit(task)))
  {
    var t := Next(s, Submit(task));
    forall j: nat | j < |t.jobs| ensures JobOk(t, t.jobs[j]) { assert JobOk(s, s.jobs[j]); }
  }

  lemma SubmitKeepsLinks(s: State, task: bool)
    requires QueueInv(s) && WorkerInv(s) && CallInv(s)
    ensures QueueInv(Next(s, Submit(task))) && WorkerInv(Next(s, Submit(task))) && CallInv(Next(s, Submit(task)))
  {
  }

  lemma SubmitKeepsExit(s: State, task: bool)
    requires ExitInv(s)
    ensures ExitInv(Next(s, Submit(task)))
  {
  }

  lemma SubmitKeeps(s: State, task: bool)
    requires Inv(s)
    ensures Inv(Next(s, Submit(task)))
  {
    SubmitKeepsLinks(s, task);
    SubmitKeepsExit(s, task);
    SubmitKeepsCounts(s, task);
    SubmitKeepsJobs(s, task);
  }

  lemma CancelKeeps(s: State, j: nat)
    requires Inv(s) && Enabled(s, Cancel(j))
    ensures Inv(Next(s, Cancel(j)))
  {
    JobCounts(s, j, Next(s, Cancel(j)).jobs[j]);
    CancelKeepsJobs(s, j);
    CancelKeepsLinks(s, j);
  }

  lemma CancelKeepsLinks(s: State, j: nat)
    requires QueueInv(s) && WorkerInv(s) && CallInv(s) && Enabled(s, Cancel(j))
    ensures QueueInv(Next(s, Cancel(j))) && WorkerInv(Next(s, Cancel(j))) && CallInv(Next(s, Cancel(j)))
  {
  }

  // Raising a flag never invalidates a phase: both flags are monotone.
  lemma FlagsKeepPhase(job: Job, worker: Worker, stopping: bool)
    requires PhaseOk(job, worker, stopping)
    ensures PhaseOk(job.(cancelled := true), worker, stopping)
    ensures PhaseOk(job, worker, true)
  {
  }

  lemma CancelKeepsJobs(s: State, j: nat)
    requires JobInv(s) && Enabled(s, Cancel(j))
    ensures JobInv(Next(s, Cancel(j)))
  {
    var t := Next(s, Cancel(j));
    forall k: nat | k < |t.jobs| ensures JobOk(t, t.jobs[k]) {
      assert JobOk(s, s.jobs[k]);
      if k == j && s.jobs[j].place.At? {
        FlagsKeepPhase(s.jobs[j], s.workers[s.jobs[j].place.worker], s.stopping);
      }
    }
  }

  lemma ShutdownKeeps(s: State)
    requires Inv(s) && Enabled(s, Shutdown)
    ensures Inv(Next(s, Shutdown))
  {
    var t := Next(s, Shutdown);
    assert JobInv(t) by {
      forall k: nat | k < |t.jobs| ensures JobOk(t, t.jobs[k]) {
        assert JobOk(s, s.jobs[k]);
        if s.jobs[k].place.At? {
          FlagsKeepPhase(s.jobs[k], s.workers[s.jobs[k].place.worker], s.stopping);
        }
      }
    }
  }

  // A call changes itself and at most the job it carries or creates.
  lemma CallShape(s: State, c: nat)
    requires CallInv(s) && Enabled(s, Advance(c))
    ensures var t := CallStep(s, c);
            && t.workers == s.workers && t.capacity == s.capacity && t.stopping == s.stopping
            && t.sender == s.sender && t.phase == s.phase
            && |t.calls| == |s.calls| && t.calls == s.calls[c := t.calls[c]]
            && (s.calls[c].Admitted? ==> t.jobs == s.jobs + [NewJob(s.calls[c].task, c)])
            && (s.calls[c].CarriesUnsent() ==>
                  && |t.jobs| == |s.jobs|
                  && t.jobs == s.jobs[s.calls[c].job :=
                        s.jobs[s.calls[c].job].(place := t.jobs[s.calls[c].job].place)])
            && (!s.calls[c].Admitted? && !s.calls[c].CarriesUnsent() ==> t.jobs == s.jobs)
  {
  }

  lemma CallKeepsDepth(s: State, c: nat)
    requires CallInv(s) && DepthInv(s) && Enabled(s, Advance(c))
    ensures DepthInv(CallStep(s, c))
  {
    CallShape(s, c);
    WhereUpdate(s.calls, InFlight, c, CallStep(s, c).calls[c]);
  }

  // The counters move exactly with the call's own stage.
  lemma CallMetrics(s: State, c: nat)
    requires CallInv(s) && Enabled(s, Advance(c))
    ensures var t := CallStep(s, c);
            && !IsAccepted(s.calls[c]) && !IsRejected(s.calls[c]) && t.panicked == s.panicked
            && t.submitted == s.submitted + (if IsAccepted(t.calls[c]) then 1 else 0)
            && t.rejected == s.rejected + (if IsRejected(t.calls[c]) then 1 else 0)
            && (IsEnqueued(s.calls[c]) <==> IsAccepted(t.calls[c]))
            && (IsEnqueued(t.calls[c]) ==> s.calls[c].CarriesUnsent())
            && (s.calls[c].CarriesUnsent() ==>
                  (IsEnqueued(t.calls[c]) <==> t.jobs[s.calls[c].job].place.Sent()))
  {
    CallShape(s, c);
  }

  lemma CallCounts(s: State, t: State, c: nat)
    requires c < |s.calls| && c < |t.calls| && t.calls == s.calls[c := t.calls[c]]
    requires !IsAccepted(s.calls[c]) && !IsRejected(s.calls[c])
    requires IsEnqueued(s.calls[c]) <==> IsAccepted(t.calls[c])
    ensures |Where(t.calls, IsAccepted)| == |Where(s.calls, IsAccepted)| + (if IsAccepted(t.calls[c]) then 1 else 0)
    ensures |Where(t.calls, IsRejected)| == |Where(s.calls, IsRejected)| + (if IsRejected(t.calls[c]) then 1 else 0)
    ensures |Where(t.calls, IsAccepted)| + |Where(t.calls, IsEnqueued)|
         == |Where(s.calls, IsAccepted)| + |Where(s.calls, IsEnqueued)| + (if IsEnqueued(t.calls[c]) then 1 else 0)
  {
    WhereUpdate(s.calls, IsAccepted, c, t.calls[c]);
    WhereUpdate(s.calls, IsRejected, c, t.calls[c]);
    WhereUpdate(s.calls, IsEnqueued, c, t.calls[c]);
  }

  lemma CallKeepsMetrics(s: State, c: nat)
    requires CallInv(s) && MetricsInv(s) && Enabled(s, Advance(c))
    ensures MetricsInv(CallStep(s, c))
  {
    var t := CallStep(s, c);
    CallShape(s, c);
    CallMetrics(s, c);
    CallCounts(s, t, c);
    if s.calls[c].Admitted? {
      WhereAppend(s.jobs, IsSent, NewJob(s.calls[c].task, c));
      WhereAppend(s.jobs, IsCrashed, NewJob(s.calls[c].task, c));
    } else if s.calls[c].CarriesUnsent() {
      JobCounts(s, s.calls[c].job, t.jobs[s.calls[c].job]);
    }
  }

  lemma CallKeepsJobs(s: State, c: nat)
    requires CallInv(s) && JobInv(s) && Enabled(s, Advance(c))
    ensures JobInv(CallStep(s, c))
  {
    var t := CallStep(s, c);
    CallShape(s, c);
    if s.calls[c].CarriesUnsent() {
      var j := s.calls[c].job;
      assert JobOk(s, s.jobs[j]);
      assert Fresh(s.jobs[j]) && !t.jobs[j].place.At? && !t.jobs[j].place.Finished?;
    }
    forall j: nat | j < |t.jobs| ensures JobOk(t, t.jobs[j]) {
      if j < |s.jobs| { assert JobOk(s, s.jobs[j]); }
    }
  }

  lemma CallKeepsExit(s: State, c: nat)
    requires CallInv(s) && ExitInv(s) && Enabled(s, Advance(c))
    ensures ExitInv(CallStep(s, c))
  {
    var t := CallStep(s, c);
    CallShape(s, c);
    if w :| 0 <= w < |t.workers| && t.workers[w].Exited? {
      assert s.workers[w].Exited?;
      assert Disconnected(s) && !s.calls[c].HoldsSender();
      assert !t.calls[c].HoldsSender() && t.queue == s.queue;
    }
  }

  lemma CreatingKeepsCalls(s: State, c: nat, task: bool)
    requires CallInv(s) && c < |s.calls| && s.calls[c] == Admitted(task)
    ensures CallInv(CallStep(s, c))
  {
  }

  lemma CarryingFrame(s: State, t: State, c: nat, j: nat)
    requires CallInv(s) && c < |s.calls| && s.calls[c].CarriesUnsent() && s.calls[c].job == j
    requires |t.calls| == |s.calls| && t.calls == s.calls[c := t.calls[c]]
    requires |t.jobs| == |s.jobs| && j < |s.jobs| && t.jobs == s.jobs[j := s.jobs[j].(place := t.jobs[j].place)]
    requires (t.calls[c].CarriesUnsent() && t.calls[c].job == j && t.jobs[j].place.Unsent?)
          || (t.calls[c].CarriesSent() && t.calls[c].job == j && t.jobs[j].place.Sent())
          || (!t.calls[c].CarriesUnsent() && !t.calls[c].CarriesSent() && t.jobs[j].place.Dropped?)
    ensures CallInv(t)
  {
  }

  lemma KeepingFrame(s: State, t: State, c: nat)
    requires CallInv(s) && c < |s.calls| && !s.calls[c].CarriesUnsent()
    requires |t.calls| == |s.calls| && t.calls == s.calls[c := t.calls[c]] && t.jobs == s.jobs
    requires !t.calls[c].CarriesUnsent() && t.calls[c].CarriesSent() == s.calls[c].CarriesSent()
    requires t.calls[c].CarriesSent() ==> t.calls[c].job == s.calls[c].job
    ensures CallInv(t)
  {
  }

  lemma CallKeepsCalls(s: State, c: nat)
    requires CallInv(s) && Enabled(s, Advance(c))
    ensures CallInv(CallStep(s, c))
  {
    if s.calls[c].Admitted? {
      CreatingKeepsCalls(s, c, s.calls[c].task);
    } else {
      CallShape(s, c);
      if s.calls[c].CarriesUnsent() {
        CarryingFrame(s, CallStep(s, c), c, s.calls[c].job);
      } else {
        KeepingFrame(s, CallStep(s, c), c);
      }
    }
  }

  lemma CallKeepsQueue(s: State, c: nat)
    requires CallInv(s) && QueueInv(s) && Enabled(s, Advance(c))
    ensures QueueInv(CallStep(s, c))
  {
    CallShape(s, c);
  }

  lemma CallKeepsWorkers(s: State, c: nat)
    requires CallInv(s) && WorkerInv(s) && Enabled(s, Advance(c))
    ensures WorkerInv(CallStep(s, c))
  {
    CallShape(s, c);
  }

  lemma WorkerKeepsExit(s: State, w: nat, body: Body)
    requires ExitInv(s) && Enabled(s, Work(w, body))
    ensures ExitInv(WorkerStep(s, w, body))
  {
    var t := WorkerStep(s, w, body);
    if v :| 0 <= v < |t.workers| && t.workers[v].Exited? {
      if s.workers[v].Exited? {
        assert Disconnected(t);
      } else {
        assert v == w && s.workers[w].Idle?;
        assert Disconnected(t);
      }
    }
  }

  // A busy worker's step leads from one good phase of its job to the next.
  lemma BusyStepKeepsPhase(worker: Worker, job: Job, stopping: bool, body: Body)
    requires worker.Busy() && PhaseOk(job, worker, stopping) && job.place.At?
    ensures var (next, job') := BusyStep(worker, job, stopping, body);
            && (next.Busy() ==> next.job == worker.job && job'.place == job.place && PhaseOk(job', next, stopping))
            && (!next.Busy() ==> next.Idle? && job'.place.Finished? && Settled(job', worker.outcome))
            && job'.owner == job.owner && job'.task == job.task
            && (next.Busy() <==> !worker.Notify?)
  {
  }

  lemma BusyShape(s: State, w: nat, body: Body)
    requires WorkerInv(s) && JobInv(s) && Enabled(s, Work(w, body)) && s.workers[w].Busy()
    ensures var j := s.workers[w].job; var t := WorkerStep(s, w, body);
            && s.jobs[j].place == At(w)
            && PhaseOk(s.jobs[j], s.workers[w], s.stopping)
            && |t.jobs| == |s.jobs| && |t.workers| == |s.workers|
            && t.workers == s.workers[w := t.workers[w]] && t.jobs == s.jobs[j := t.jobs[j]]
            && t.calls == s.calls && t.queue == s.queue && t.capacity == s.capacity
            && t.submitted == s.submitted && t.rejected == s.rejected && t.stopping == s.stopping
            && t.jobs[j].owner == s.jobs[j].owner
            && (t.workers[w].Busy() ==>
                  && t.workers[w].job == j && t.jobs[j].place == At(w)
                  && PhaseOk(t.jobs[j], t.workers[w], s.stopping))
            && (!t.workers[w].Busy() ==>
                  && t.workers[w].Idle? && t.jobs[j].place.Finished?
                  && Settled(t.jobs[j], s.workers[w].outcome))
  {
    assert JobOk(s, s.jobs[s.workers[w].job]);
    BusyStepKeepsPhase(s.workers[w], s.jobs[s.workers[w].job], s.stopping, body);
  }

  // Worker `w` hands job `j` on: from the queue to itself, through its phases, to the end.
  lemma HandOver(s: State, t: State, w: nat, j: nat)
    requires WorkerInv(s) && CallInv(s) && JobInv(s) && w < |s.workers| && j < |s.jobs|
    requires |t.workers| == |s.workers| && t.workers == s.workers[w := t.workers[w]]
    requires |t.jobs| == |s.jobs| && t.jobs == s.jobs[j := t.jobs[j]]
    requires t.calls == s.calls && t.stopping == s.stopping
    requires if s.workers[w].Busy() then s.workers[w].job == j else s.jobs[j].place.Queued?
    requires t.jobs[j].owner == s.jobs[j].owner
    requires if t.workers[w].Busy()
             then t.workers[w].job == j && t.jobs[j].place == At(w) && PhaseOk(t.jobs[j], t.workers[w], t.stopping)
             else t.jobs[j].place.Finished? && |t.jobs[j].outcomes| == 1 && Settled(t.jobs[j], t.jobs[j].outcomes[0])
    ensures WorkerInv(t) && CallInv(t) && JobInv(t)
  {
    HandOverLinks(s, t, w, j);
    forall k: nat | k < |t.jobs| ensures JobOk(t, t.jobs[k]) { assert JobOk(s, s.jobs[k]); }
  }

  lemma HandOverLinks(s: State, t: State, w: nat, j: nat)
    requires WorkerInv(s) && CallInv(s) && w < |s.workers| && j < |s.jobs|
    requires |t.workers| == |s.workers| && t.workers == s.workers[w := t.workers[w]]
    requires |t.jobs| == |s.jobs| && t.jobs == s.jobs[j := t.jobs[j]]
    requires t.calls == s.calls && t.stopping == s.stopping
    requires if s.workers[w].Busy() then s.workers[w].job == j else s.jobs[j].place.Queued?
    requires t.jobs[j].owner == s.jobs[j].owner
    requires if t.workers[w].Busy() then t.workers[w].job == j && t.jobs[j].place == At(w)
             else t.jobs[j].place.Finished?
    ensures WorkerInv(t) && CallInv(t)
  {
  }

  lemma BusyKeeps(s: State, w: nat, body: Body)
    requires QueueInv(s) && WorkerInv(s) && CallInv(s) && JobInv(s)
    requires Enabled(s, Work(w, body)) && s.workers[w].Busy()
    ensures QueueInv(WorkerStep(s, w, body)) && WorkerInv(WorkerStep(s, w, body))
    ensures CallInv(WorkerStep(s, w, body)) && JobInv(WorkerStep(s, w, body))
  {
    BusyShape(s, w, body);
    HandOver(s, WorkerStep(s, w, body), w, s.workers[w].job);
    QueueFrame(s, WorkerStep(s, w, body), s.workers[w].job);
  }

  lemma QueueFrame(s: State, t: State, j: nat)
    requires QueueInv(s) && j < |s.jobs| && |t.jobs| == |s.jobs| && t.jobs == s.jobs[j := t.jobs[j]]
    requires t.queue == s.queue && t.capacity == s.capacity
    requires !s.jobs[j].place.Queued? && !t.jobs[j].place.Queued?
    ensures QueueInv(t)
  {
  }

  lemma BusyKeepsCounts(s: State, w: nat, body: Body)
    requires WorkerInv(s) && JobInv(s) && DepthInv(s) && MetricsInv(s)
    requires Enabled(s, Work(w, body)) && s.workers[w].Busy()
    ensures DepthInv(WorkerStep(s, w, body)) && MetricsInv(WorkerStep(s, w, body))
  {
    BusyShape(s, w, body);
    var t := WorkerStep(s, w, body);
    WhereUpdate(s.workers, Undecremented, w, t.workers[w]);
    JobCounts(s, s.workers[w].job, t.jobs[s.workers[w].job]);
  }

  lemma ReceiveKeeps(s: State, w: nat, body: Body)
    requires QueueInv(s) && WorkerInv(s) && CallInv(s) && JobInv(s)
    requires Enabled(s, Work(w, body)) && s.workers[w].Idle? && s.queue != []
    ensures QueueInv(WorkerStep(s, w, body)) && WorkerInv(WorkerStep(s, w, body))
    ensures CallInv(WorkerStep(s, w, body)) && JobInv(WorkerStep(s, w, body))
  {
    var j := s.queue[0];
    assert JobOk(s, s.jobs[j]);
    HandOver(s, WorkerStep(s, w, body), w, j);
    PopKeepsQueue(s, WorkerStep(s, w, body), w);
  }

  lemma PopKeepsQueue(s: State, t: State, w: nat)
    requires QueueInv(s) && s.queue != [] && t.queue == s.queue[1..] && t.capacity == s.capacity
    requires t.jobs == s.jobs[s.queue[0] := s.jobs[s.queue[0]].(place := At(w))]
    ensures QueueInv(t)
  {
    forall j: nat | j < |t.jobs| && t.jobs[j].place.Queued? ensures j in t.queue {
      assert j in s.queue && j != s.queue[0];
    }
  }

  lemma ReceiveKeepsCounts(s: State, w: nat, body: Body)
    requires QueueInv(s) && DepthInv(s) && MetricsInv(s)
    requires Enabled(s, Work(w, body)) && s.workers[w].Idle? && s.queue != []
    ensures DepthInv(WorkerStep(s, w, body)) && MetricsInv(WorkerStep(s, w, body))
  {
    var t := WorkerStep(s, w, body);
    WhereUpdate(s.workers, Undecremented, w, t.workers[w]);
    JobCounts(s, s.queue[0], t.jobs[s.queue[0]]);
  }

  lemma ExitKeeps(s: State, w: nat, body: Body)
    requires Inv(s) && Enabled(s, Work(w, body)) && s.workers[w].Idle? && s.queue == []
    ensures Inv(WorkerStep(s, w, body))
  {
    var t := WorkerStep(s, w, body);
    WhereUpdate(s.workers, Undecremented, w, Exited);
    forall j: nat | j < |t.jobs| ensures JobOk(t, t.jobs[j]) { assert JobOk(s, s.jobs[j]); }
    WorkerKeepsExit(s, w, body);
  }

  lemma WorkerKeeps(s: State, w: nat, body: Body)
    requires Inv(s) && Enabled(s, Work(w, body))
    ensures Inv(WorkerStep(s, w, body))
  {
    WorkerKeepsExit(s, w, body);
    if s.workers[w].Busy() {
      BusyKeeps(s, w, body);
      BusyKeepsCounts(s, w, body);
    } else if s.queue != [] {
      ReceiveKeeps(s, w, body);
      ReceiveKeepsCounts(s, w, body);
    } else {
      ExitKeeps(s, w, body);
    }
  }

  lemma StepKeeps(s: State, a: Action)
    requires Inv(s) && Enabled(s, a)
    ensures Inv(Next(s, a))
  {
    match a
    case Submit(task) => SubmitKeeps(s, task);
    case Advance(c) =>
      CallKeepsDepth(s, c); CallKeepsMetrics(s, c); CallKeepsJobs(s, c); CallKeepsExit(s, c); CallKeepsCalls(s, c);
      CallKeepsQueue(s, c); CallKeepsWorkers(s, c);
    case Work(w, body) => WorkerKeeps(s, w, body);
    case Cancel(j) => CancelKeeps(s, j);
    case Shutdown => ShutdownKeeps(s);
  }

  lemma {:induction false} RunKeeps(s: State, run: seq<Action>)
    requires Inv(s) && Valid(s, run)
    ensures Inv(Exec(s, run))
    decreases |run|
  {
    if run != [] {
      StepKeeps(s, run[0]);
      RunKeeps(Next(s, run[0]), run[1..]);
    }
  }

  lemma ReachableInv(s: State)
    requires Reachable(s)
    ensures Inv(s)
  {
    var capacity: nat, workers: nat, run :| Starts(capacity, workers, run) && Exec(Init(capacity, workers), run) == s;
    InitInv(capacity, workers);
    RunKeeps(Init(capacity, workers), run);
  }

  lemma {:induction false} ValidAppend(s: State, run: seq<Action>, a: Action)
    requires Valid(s, run) && Enabled(Exec(s, run), a)
    ensures Valid(s, run + [a]) && Exec(s, run + [a]) == Next(Exec(s, run), a)
    decreases |run|
  {
    if run != [] {
      ValidAppend(Next(s, run[0]), run[1..], a);
      assert (run + [a])[1..] == run[1..] + [a];
    }
  }
}
