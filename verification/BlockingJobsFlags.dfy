/** What the two flags have to do with a job's outcome. */
module BlockingJobsFlags {
  import opened Common
  import opened BlockingJobs
  import opened BlockingJobsProofs

  // ----- nothing is reported as cancelled unless a flag is up

  predicate SaysCancelled(worker: Worker) {
    || ((worker.Deliver? || worker.Notify?) && worker.outcome == Cancelled)
    || (worker.TaskSend? && worker.result == TaskCancelled)
  }

  predicate Clean(job: Job) { Cancelled !in job.outcomes && TaskCancelled !in job.future }

  // A flag is up, or neither the job nor its worker speaks of cancellation.
  predicate Blamed(worker: Worker, job: Job, stopping: bool) {
    job.cancelled || stopping || (Clean(job) && !SaysCancelled(worker))
  }

  ghost predicate JobBlamed(s: State, j: nat)
    requires j < |s.jobs|
  {
    if s.jobs[j].place.At? && s.jobs[j].place.worker < |s.workers|
    then Blamed(s.workers[s.jobs[j].place.worker], s.jobs[j], s.stopping)
    else s.jobs[j].cancelled || s.stopping || Clean(s.jobs[j])
  }

  ghost predicate FlagInv(s: State) { forall j: nat | j < |s.jobs| :: JobBlamed(s, j) }

  lemma BusyBlames(worker: Worker, job: Job, stopping: bool, body: Body)
    requires worker.Busy() && PhaseOk(job, worker, stopping) && Blamed(worker, job, stopping)
    ensures var (next, job') := BusyStep(worker, job, stopping, body);
            job'.cancelled == job.cancelled && Blamed(next, job', stopping)
  {
  }

  lemma BlamedFrame(s: State, t: State, j: nat)
    requires j < |s.jobs| && j < |t.jobs| && JobBlamed(s, j) && |t.workers| == |s.workers|
    requires t.jobs[j] == s.jobs[j] || t.jobs[j] == s.jobs[j].(cancelled := true)
    requires s.stopping ==> t.stopping
    requires s.jobs[j].place.At? && s.jobs[j].place.worker < |s.workers| ==>
               t.workers[s.jobs[j].place.worker] == s.workers[s.jobs[j].place.worker]
    ensures JobBlamed(t, j)
  {
  }

  lemma FreshIsClean(s: State, j: nat)
    requires JobInv(s) && j < |s.jobs| && !s.jobs[j].place.At? && !s.jobs[j].place.Finished?
    ensures Clean(s.jobs[j])
  {
    assert JobOk(s, s.jobs[j]);
  }

  lemma CallBlames(s: State, c: nat, j: nat)
    requires CallInv(s) && JobInv(s) && FlagInv(s) && Enabled(s, Advance(c)) && j < |CallStep(s, c).jobs|
    ensures JobBlamed(CallStep(s, c), j)
  {
    CallShape(s, c);
    var t := CallStep(s, c);
    if j < |s.jobs| {
      assert JobBlamed(s, j);
      if s.calls[c].CarriesUnsent() && s.calls[c].job == j {
        FreshIsClean(s, j);
      } else {
        BlamedFrame(s, t, j);
      }
    }
  }

  lemma WorkBlames(s: State, w: nat, body: Body, j: nat)
    requires QueueInv(s) && WorkerInv(s) && JobInv(s) && FlagInv(s) && Enabled(s, Work(w, body)) && j < |s.jobs|
    ensures j < |WorkerStep(s, w, body).jobs| && JobBlamed(WorkerStep(s, w, body), j)
  {
    var t := WorkerStep(s, w, body);
    assert JobBlamed(s, j);
    if s.workers[w].Busy() {
      BusyShape(s, w, body);
      if s.workers[w].job == j {
        BusyBlames(s.workers[w], s.jobs[j], s.stopping, body);
      } else {
        BlamedFrame(s, t, j);
      }
    } else if s.queue != [] && s.queue[0] == j {
      FreshIsClean(s, j);
      assert t.workers[w] == Got(j);
    } else {
      BlamedFrame(s, t, j);
    }
  }

  lemma FlagStep(s: State, a: Action)
    requires Inv(s) && FlagInv(s) && Enabled(s, a)
    ensures FlagInv(Next(s, a))
  {
    var t := Next(s, a);
    forall j: nat | j < |t.jobs| ensures JobBlamed(t, j) {
      match a {
        case Advance(c) => CallBlames(s, c, j);
        case Work(w, body) => WorkBlames(s, w, body, j);
        case _ => assert JobBlamed(s, j); BlamedFrame(s, t, j);
      }
    }
  }

  lemma {:induction false} FlagRun(s: State, run: seq<Action>)
    requires Inv(s) && FlagInv(s) && Valid(s, run)
    ensures FlagInv(Exec(s, run))
    decreases |run|
  {
    if run != [] {
      FlagStep(s, run[0]);
      StepKeeps(s, run[0]);
      FlagRun(Next(s, run[0]), run[1..]);
    }
  }

  // In every reachable state, a job reported as cancelled, or a task whose future says so, has
  // its own flag or the stop flag raised.
  lemma CancelledNeedsFlag(s: State, j: nat)
    requires Reachable(s) && j < |s.jobs|
    requires Cancelled in s.jobs[j].outcomes || TaskCancelled in s.jobs[j].future
    ensures s.jobs[j].cancelled || s.stopping
  {
    var capacity: nat, workers: nat, run :| Starts(capacity, workers, run) && Exec(Init(capacity, workers), run) == s;
    InitInv(capacity, workers);
    FlagRun(Init(capacity, workers), run);
    assert JobBlamed(s, j);
  }

  // ----- what was read decides what is reported

  // The flags read for a job, in order: by the worker before it runs it, by a task after its body, and
  // by the worker after the closure returned.
  datatype Seen = Seen(before: seq<bool>, task: seq<bool>, after: seq<bool>) {
    function Plus(more: Seen): Seen { Seen(before + more.before, task + more.task, after + more.after) }
  }

  const NOTHING := Seen([], [], [])

  function BusyReads(worker: Worker, job: Job, stopping: bool): Seen {
    match worker
    case Check(_) => Seen([job.cancelled], [], [])
    case CheckStop(_) => Seen([stopping], [], [])
    case TaskCheck(_, _) => Seen([], [job.cancelled], [])
    case TaskCheckStop(_, _) => Seen([], [stopping], [])
    case PostCheck(_) => Seen([], [], [job.cancelled])
    case PostCheckStop(_) => Seen([], [], [stopping])
    case _ => NOTHING
  }

  function ReadBy(s: State, a: Action, j: nat): Seen {
    if a.Work? && a.worker < |s.workers| && j < |s.jobs| && s.workers[a.worker].Busy() && s.workers[a.worker].job == j
    then BusyReads(s.workers[a.worker], s.jobs[j], s.stopping) else NOTHING
  }

  function Reads(s: State, run: seq<Action>, j: nat): Seen
    requires Valid(s, run)
    decreases |run|
  {
    if run == [] then NOTHING else ReadBy(s, run[0], j).Plus(Reads(Next(s, run[0]), run[1..], j))
  }

  // Two flags found down, or one found up.
  predicate Clear(found: seq<bool>) { found == [false, false] }

  predicate Raised(found: seq<bool>) { found == [true] || found == [false, true] }

  // What the body of a task that returned has sent.
  predicate TaskAnswered(job: Job, task: seq<bool>) {
    if job.task then
      |job.future| == 1 && job.returned.Some?
      && if job.future[0] == Value(job.returned.value) then Clear(task)
         else job.future[0] == TaskCancelled && Raised(task)
    else task == []
  }

  // The closure ran to its end, and both reads before it found their flag down.
  predicate Ran(job: Job, seen: Seen) {
    job.starts == 1 && job.returned.Some? && Clear(seen.before) && TaskAnswered(job, seen.task)
  }

  // How an outcome follows.
  predicate Follows(outcome: Outcome, job: Job, seen: Seen) {
    match outcome
    case Completed => Ran(job, seen) && Clear(seen.after)
    case Cancelled =>
      || (Ran(job, seen) && Raised(seen.after))
      || (job.starts == 0 && job.returned.None? && Raised(seen.before) && seen.task == [] && seen.after == [])
    case Panicked =>
      job.starts == 1 && job.returned.None? && Clear(seen.before) && seen.task == [] && seen.after == []
  }

  predicate JudgedAt(worker: Worker, job: Job, seen: Seen) {
    match worker
    case Got(_) => seen == NOTHING
    case Check(_) => seen == NOTHING
    case CheckStop(_) => seen == Seen([false], [], [])
    case TaskCheckStop(_, _) => seen == Seen([false, false], [false], [])
    case TaskSend(_, r) =>
      Clear(seen.before) && (if r == TaskCancelled then Raised(seen.task) else Clear(seen.task)) && seen.after == []
    case PostCheck(_) => Clear(seen.before) && TaskAnswered(job, seen.task) && seen.after == []
    case PostCheckStop(_) => Clear(seen.before) && TaskAnswered(job, seen.task) && seen.after == [false]
    case Deliver(_, o) => Follows(o, job, seen)
    case Notify(_, o) => Follows(o, job, seen)
    case _ => seen == Seen([false, false], [], [])
  }

  ghost predicate Judged(s: State, j: nat, seen: Seen) {
    if j >= |s.jobs| then seen == NOTHING
    else
      match s.jobs[j].place
      case At(w) => w < |s.workers| && JudgedAt(s.workers[w], s.jobs[j], seen)
      case Finished => |s.jobs[j].outcomes| == 1 && Follows(s.jobs[j].outcomes[0], s.jobs[j], seen)
      case _ => seen == NOTHING
  }

  lemma JudgedFrame(s: State, t: State, j: nat, seen: Seen)
    requires j < |s.jobs| && j < |t.jobs| && Judged(s, j, seen) && |t.workers| == |s.workers|
    requires t.jobs[j] == s.jobs[j] || t.jobs[j] == s.jobs[j].(cancelled := true)
    requires s.jobs[j].place.At? && s.jobs[j].place.worker < |s.workers| ==>
               t.workers[s.jobs[j].place.worker] == s.workers[s.jobs[j].place.worker]
    ensures Judged(t, j, seen)
  {
  }

  // What one operation of a busy worker leaves behind, given what was read for its job up to then.
  predicate JudgedNext(worker: Worker, job: Job, stopping: bool, body: Body, seen: Seen)
    requires worker.Busy()
  {
    var (next, job') := BusyStep(worker, job, stopping, body);
    var all := seen.Plus(BusyReads(worker, job, stopping));
    if next.Busy() then JudgedAt(next, job', all)
    else |job'.outcomes| == 1 && Follows(job'.outcomes[0], job', all)
  }

  lemma BeforeJudges(worker: Worker, job: Job, stopping: bool, body: Body, seen: Seen)
    requires worker.Got? || worker.Check? || worker.CheckStop? || worker.Running?
    requires PhaseOk(job, worker, stopping) && JudgedAt(worker, job, seen)
    ensures JudgedNext(worker, job, stopping, body, seen)
  {
  }

  lemma TaskJudges(worker: Worker, job: Job, stopping: bool, body: Body, seen: Seen)
    requires worker.TaskCheck? || worker.TaskCheckStop? || worker.TaskSend?
    requires PhaseOk(job, worker, stopping) && JudgedAt(worker, job, seen)
    ensures JudgedNext(worker, job, stopping, body, seen)
  {
  }

  lemma AfterJudges(worker: Worker, job: Job, stopping: bool, body: Body, seen: Seen)
    requires worker.PostCheck? || worker.PostCheckStop?
    requires PhaseOk(job, worker, stopping) && JudgedAt(worker, job, seen)
    ensures JudgedNext(worker, job, stopping, body, seen)
  {
  }

  lemma EndJudges(worker: Worker, job: Job, stopping: bool, body: Body, seen: Seen)
    requires worker.CountPanic? || worker.Deliver? || worker.Notify?
    requires PhaseOk(job, worker, stopping) && JudgedAt(worker, job, seen)
    ensures JudgedNext(worker, job, stopping, body, seen)
  {
    NothingMore(seen);
  }

  lemma BusyJudges(worker: Worker, job: Job, stopping: bool, body: Body, seen: Seen)
    requires worker.Busy() && PhaseOk(job, worker, stopping) && JudgedAt(worker, job, seen)
    ensures JudgedNext(worker, job, stopping, body, seen)
  {
    if worker.Got? || worker.Check? || worker.CheckStop? || worker.Running? {
      BeforeJudges(worker, job, stopping, body, seen);
    } else if worker.TaskCheck? || worker.TaskCheckStop? || worker.TaskSend? {
      TaskJudges(worker, job, stopping, body, seen);
    } else if worker.PostCheck? || worker.PostCheckStop? {
      AfterJudges(worker, job, stopping, body, seen);
    } else {
      EndJudges(worker, job, stopping, body, seen);
    }
  }

  lemma NothingMore(seen: Seen)
    ensures seen.Plus(NOTHING) == seen
  {
  }

  lemma BusyResult(s: State, w: nat, body: Body)
    requires Enabled(s, Work(w, body)) && s.workers[w].Busy()
    ensures var j, t := s.workers[w].job, WorkerStep(s, w, body);
            && j < |t.jobs| && w < |t.workers|
            && (t.workers[w], t.jobs[j]) == BusyStep(s.workers[w], s.jobs[j], s.stopping, body)
            && ReadBy(s, Work(w, body), j) == BusyReads(s.workers[w], s.jobs[j], s.stopping)
  {
  }

  lemma OwnJobJudged(t: State, w: nat, j: nat, seen: Seen)
    requires j < |t.jobs| && w < |t.workers|
    requires if t.workers[w].Busy() then t.jobs[j].place == At(w) && JudgedAt(t.workers[w], t.jobs[j], seen)
             else t.jobs[j].place.Finished? && |t.jobs[j].outcomes| == 1
                  && Follows(t.jobs[j].outcomes[0], t.jobs[j], seen)
    ensures Judged(t, j, seen)
  {
  }

  // The worker's own job, with the state after the step as `t`.
  lemma OwnWorkJudges(s: State, t: State, w: nat, body: Body, j: nat, seen: Seen)
    requires WorkerInv(s) && JobInv(s) && Enabled(s, Work(w, body)) && s.workers[w].Busy() && s.workers[w].job == j
    requires Judged(s, j, seen) && t == WorkerStep(s, w, body)
    ensures Judged(t, j, seen.Plus(BusyReads(s.workers[w], s.jobs[j], s.stopping)))
  {
    BusyShape(s, w, body);
    BusyJudges(s.workers[w], s.jobs[j], s.stopping, body, seen);
    BusyResult(s, w, body);
    OwnJobJudged(t, w, j, seen.Plus(BusyReads(s.workers[w], s.jobs[j], s.stopping)));
  }

  lemma BusyWorkJudges(s: State, t: State, w: nat, body: Body, j: nat, seen: Seen, more: Seen)
    requires WorkerInv(s) && JobInv(s) && Enabled(s, Work(w, body)) && s.workers[w].Busy() && Judged(s, j, seen)
    requires t == WorkerStep(s, w, body) && more == ReadBy(s, Work(w, body), j)
    ensures Judged(t, j, seen.Plus(more))
  {
    if s.workers[w].job == j {
      OwnWorkJudges(s, t, w, body, j, seen);
      BusyResult(s, w, body);
    } else {
      NothingMore(seen);
      BusyShape(s, w, body);
      if j < |s.jobs| { JudgedFrame(s, t, j, seen); }
    }
  }

  lemma IdleWorkJudges(s: State, w: nat, body: Body, j: nat, seen: Seen)
    requires QueueInv(s) && WorkerInv(s) && Enabled(s, Work(w, body)) && s.workers[w].Idle? && Judged(s, j, seen)
    ensures Judged(WorkerStep(s, w, body), j, seen)
  {
    if j < |s.jobs| && !(s.queue != [] && s.queue[0] == j) {
      JudgedFrame(s, WorkerStep(s, w, body), j, seen);
    }
  }

  lemma WorkJudges(s: State, w: nat, body: Body, j: nat, seen: Seen)
    requires QueueInv(s) && WorkerInv(s) && JobInv(s) && Enabled(s, Work(w, body)) && Judged(s, j, seen)
    ensures Judged(WorkerStep(s, w, body), j, seen.Plus(ReadBy(s, Work(w, body), j)))
  {
    if s.workers[w].Busy() {
      BusyWorkJudges(s, WorkerStep(s, w, body), w, body, j, seen, ReadBy(s, Work(w, body), j));
    } else {
      NothingMore(seen);
      IdleWorkJudges(s, w, body, j, seen);
    }
  }

  lemma CallJudges(s: State, c: nat, j: nat, seen: Seen)
    requires CallInv(s) && Enabled(s, Advance(c)) && Judged(s, j, seen)
    ensures Judged(CallStep(s, c), j, seen)
  {
    CallShape(s, c);
    var t := CallStep(s, c);
    if j < |s.jobs| && !(s.calls[c].CarriesUnsent() && s.calls[c].job == j) { JudgedFrame(s, t, j, seen); }
  }

  lemma JudgedStep(s: State, a: Action, j: nat, seen: Seen)
    requires Inv(s) && Enabled(s, a) && Judged(s, j, seen)
    ensures Judged(Next(s, a), j, seen.Plus(ReadBy(s, a, j)))
  {
    NothingMore(seen);
    match a
    case Advance(c) => CallJudges(s, c, j, seen);
    case Work(w, body) => WorkJudges(s, w, body, j, seen);
    case _ => if j < |s.jobs| { JudgedFrame(s, Next(s, a), j, seen); }
  }

  lemma Reassociated(a: Seen, b: Seen, c: Seen)
    ensures a.Plus(b).Plus(c) == a.Plus(b.Plus(c))
  {
  }

  lemma ReadsFirst(s: State, run: seq<Action>, j: nat, seen: Seen)
    requires run != [] && Valid(s, run)
    ensures seen.Plus(ReadBy(s, run[0], j)).Plus(Reads(Next(s, run[0]), run[1..], j)) == seen.Plus(Reads(s, run, j))
  {
    Reassociated(seen, ReadBy(s, run[0], j), Reads(Next(s, run[0]), run[1..], j));
  }

  lemma {:induction false} JudgedRun(s: State, run: seq<Action>, j: nat, seen: Seen)
    returns (t: State, all: Seen)
    requires Inv(s) && Valid(s, run) && Judged(s, j, seen)
    ensures t == Exec(s, run) && all == seen.Plus(Reads(s, run, j)) && Judged(t, j, all)
    decreases |run|
  {
    if run == [] {
      NothingMore(seen);
      t, all := s, seen;
    } else {
      JudgedStep(s, run[0], j, seen);
      StepKeeps(s, run[0]);
      t, all := JudgedRun(Next(s, run[0]), run[1..], j, seen.Plus(ReadBy(s, run[0], j)));
      ReadsFirst(s, run, j, seen);
    }
  }

  // Over a whole run: what was read decides whether a job runs, what a task's future says, and what
  // is reported.
  lemma OutcomeFollowsChecks(capacity: nat, workers: nat, run: seq<Action>, j: nat)
    requires Starts(capacity, workers, run)
    requires j < |Exec(Init(capacity, workers), run).jobs|
    requires Exec(Init(capacity, workers), run).jobs[j].place.Finished?
    ensures var job := Exec(Init(capacity, workers), run).jobs[j];
            |job.outcomes| == 1 && Follows(job.outcomes[0], job, Reads(Init(capacity, workers), run, j))
  {
    var s := Init(capacity, workers);
    InitInv(capacity, workers);
    var t, all := JudgedRun(s, run, j, NOTHING);
    assert all == Reads(s, run, j);
  }
}
