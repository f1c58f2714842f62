/** Why a call is accepted or refused, and in which order accepted jobs are taken. */
module BlockingJobsCalls {
  import opened Common
  import opened BlockingJobs
  import opened BlockingJobsProofs

  // ----- a call's answer follows from the three things it reads

  // What `submit_inner` reads: the stop flag on entry, whether the scheduler still has its sender,
  // and how long the queue is when it tries to send.
  datatype Read = Stop(raised: bool) | Sender(present: bool) | Length(n: nat)

  function ReadBy(s: State, a: Action, c: nat): seq<Read> {
    if a == Advance(c) && c < |s.calls| then
      match s.calls[c]
      case Entered(_) => [Stop(s.stopping)]
      case HasJob(_) => [Sender(s.sender)]
      case Counted(_) => [Length(|s.queue|)]
      case _ => []
    else []
  }

  function Reads(s: State, run: seq<Action>, c: nat): seq<Read>
    requires Valid(s, run)
    decreases |run|
  {
    if run == [] then [] else ReadBy(s, run[0], c) + Reads(Next(s, run[0]), run[1..], c)
  }

  // Refused on entry, refused for want of a sender, or through to the queue.
  predicate RefusedStopping(seen: seq<Read>) {
    seen == [Stop(true)] || seen == [Stop(false), Sender(false)]
  }

  predicate TriedAt(seen: seq<Read>, n: nat) { seen == [Stop(false), Sender(true), Length(n)] }

  // What a call has read at each of its stages.
  ghost predicate Explained(call: Call, seen: seq<Read>, capacity: nat) {
    match call
    case Entered(_) => seen == []
    case Admitted(_) => seen == [Stop(false)]
    case HasJob(_) => seen == [Stop(false)]
    case Holding(_) => seen == [Stop(false), Sender(true)]
    case Counted(_) => seen == [Stop(false), Sender(true)]
    case Enqueued(_) => exists n: nat :: n < capacity && TriedAt(seen, n)
    case Accepted(_) => exists n: nat :: n < capacity && TriedAt(seen, n)
    case SendFailed(_, why) => why == QueueFull && TriedAt(seen, capacity)
    case Rejecting(why, _) => if why == QueueFull then TriedAt(seen, capacity) else RefusedStopping(seen)
    case Rejected(why) => if why == QueueFull then TriedAt(seen, capacity) else RefusedStopping(seen)
  }

  ghost predicate Answered(s: State, c: nat, seen: seq<Read>) {
    if c < |s.calls| then Explained(s.calls[c], seen, s.capacity) else seen == []
  }

  // A call at `try_send` holds a sender, so a worker is left to receive.
  lemma LiveReceiver(s: State, c: nat)
    requires Inv(s) && c < |s.calls| && s.calls[c].Counted?
    ensures !AllExited(s)
  {
    if AllExited(s) {
      assert s.workers[0].Exited?;
      assert s.calls[c].HoldsSender();
    }
  }

  lemma TriesExplained(s: State, c: nat, seen: seq<Read>)
    requires c < |s.calls| && s.calls[c].Counted? && Explained(s.calls[c], seen, s.capacity)
    requires |s.queue| <= s.capacity && !AllExited(s)
    ensures Explained(CallNext(s.calls[c], s), seen + [Length(|s.queue|)], s.capacity)
  {
    assert TriedAt(seen + [Length(|s.queue|)], |s.queue|);
  }

  lemma OtherwiseExplained(s: State, c: nat, seen: seq<Read>)
    requires Enabled(s, Advance(c)) && !s.calls[c].Counted? && Explained(s.calls[c], seen, s.capacity)
    ensures Explained(CallNext(s.calls[c], s), seen + ReadBy(s, Advance(c), c), s.capacity)
  {
    assert seen + [] == seen;
  }

  lemma NextExplained(s: State, c: nat, seen: seq<Read>)
    requires Inv(s) && Enabled(s, Advance(c)) && Explained(s.calls[c], seen, s.capacity)
    ensures Explained(CallNext(s.calls[c], s), seen + ReadBy(s, Advance(c), c), s.capacity)
  {
    if s.calls[c].Counted? {
      LiveReceiver(s, c);
      TriesExplained(s, c, seen);
    } else {
      OtherwiseExplained(s, c, seen);
    }
  }

  lemma AnsweredStep(s: State, a: Action, c: nat, seen: seq<Read>)
    requires Inv(s) && Enabled(s, a) && Answered(s, c, seen)
    ensures Answered(Next(s, a), c, seen + ReadBy(s, a, c))
  {
    assert seen + [] == seen;
    if a == Advance(c) {
      NextExplained(s, c, seen);
    } else {
      OtherCallsKept(s, a, c);
    }
  }

  lemma OtherCallsKept(s: State, a: Action, c: nat)
    requires Enabled(s, a) && a != Advance(c)
    ensures Next(s, a).capacity == s.capacity
    ensures c < |s.calls| ==> c < |Next(s, a).calls| && Next(s, a).calls[c] == s.calls[c]
    ensures c >= |s.calls| ==> c >= |Next(s, a).calls| || Next(s, a).calls[c].Entered?
  {
  }

  lemma ReadsFirst(s: State, run: seq<Action>, c: nat, seen: seq<Read>)
    requires run != [] && Valid(s, run)
    ensures (seen + ReadBy(s, run[0], c)) + Reads(Next(s, run[0]), run[1..], c) == seen + Reads(s, run, c)
  {
  }

  lemma {:induction false} AnsweredRun(s: State, run: seq<Action>, c: nat, seen: seq<Read>)
    returns (t: State, all: seq<Read>)
    requires Inv(s) && Valid(s, run) && Answered(s, c, seen)
    ensures t == Exec(s, run) && all == seen + Reads(s, run, c) && Answered(t, c, all)
    decreases |run|
  {
    if run == [] {
      t, all := s, seen;
      assert seen + [] == seen;
    } else {
      AnsweredStep(s, run[0], c, seen);
      StepKeeps(s, run[0]);
      t, all := AnsweredRun(Next(s, run[0]), run[1..], c, seen + ReadBy(s, run[0], c));
      ReadsFirst(s, run, c, seen);
    }
  }

  // Over every run: a call is accepted exactly when it found the stop flag down, the sender there and
  // room in the queue, is refused as full exactly when it found the queue at its capacity, and is
  // refused as shutting down exactly when it found the flag up or the sender gone.
  lemma AnswerFollowsReads(capacity: nat, workers: nat, run: seq<Action>, c: nat)
    requires Starts(capacity, workers, run)
    requires c < |Exec(Init(capacity, workers), run).calls|
    requires Exec(Init(capacity, workers), run).calls[c].Returned()
    ensures var seen := Reads(Init(capacity, workers), run, c);
            var call := Exec(Init(capacity, workers), run).calls[c];
            && (call.Accepted? <==> exists n: nat :: n < capacity && TriedAt(seen, n))
            && (call == Rejected(QueueFull) <==> TriedAt(seen, capacity))
            && (call == Rejected(ShuttingDown) <==> RefusedStopping(seen))
  {
    InitInv(capacity, workers);
    var t, all := AnsweredRun(Init(capacity, workers), run, c, []);
    assert all == Reads(Init(capacity, workers), run, c);
    CapacityIsFixed(Init(capacity, workers), run);
  }

  lemma {:induction false} CapacityIsFixed(s: State, run: seq<Action>)
    requires Valid(s, run)
    ensures Exec(s, run).capacity == s.capacity
    decreases |run|
  {
    if run != [] { CapacityIsFixed(Next(s, run[0]), run[1..]); }
  }

  // ----- a refusal as shutting down needs a shutdown

  predicate ForShutdown(call: Call) {
    (call.Rejecting? || call.Rejected? || call.SendFailed?) && call.why == ShuttingDown
  }

  ghost predicate RefusalInv(s: State) {
    forall c: nat | c < |s.calls| && ForShutdown(s.calls[c]) :: s.stopping
  }

  lemma RefusesStopping(s: State, c: nat)
    requires Enabled(s, Advance(c)) && (!s.sender ==> s.stopping) && (s.calls[c].Counted? ==> !AllExited(s))
    requires ForShutdown(s.calls[c]) ==> s.stopping
    ensures ForShutdown(CallNext(s.calls[c], s)) ==> s.stopping
  {
  }

  lemma RefusalStep(s: State, a: Action)
    requires Inv(s) && RefusalInv(s) && Enabled(s, a)
    ensures RefusalInv(Next(s, a))
  {
    var t := Next(s, a);
    forall c: nat | c < |t.calls| && ForShutdown(t.calls[c]) ensures t.stopping {
      if a == Advance(c) {
        if s.calls[c].Counted? { LiveReceiver(s, c); }
        RefusesStopping(s, c);
      } else {
        OtherCallsKept(s, a, c);
      }
    }
  }

  lemma {:induction false} RefusalRun(s: State, run: seq<Action>)
    requires Inv(s) && RefusalInv(s) && Valid(s, run)
    ensures RefusalInv(Exec(s, run))
    decreases |run|
  {
    if run != [] {
      RefusalStep(s, run[0]);
      StepKeeps(s, run[0]);
      RefusalRun(Next(s, run[0]), run[1..]);
    }
  }

  lemma ShuttingDownMeansStopping(s: State, c: nat)
    requires Reachable(s) && c < |s.calls| && s.calls[c] == Rejected(ShuttingDown)
    ensures s.stopping
  {
    var capacity: nat, workers: nat, run :| Starts(capacity, workers, run) && Exec(Init(capacity, workers), run) == s;
    InitInv(capacity, workers);
    RefusalRun(Init(capacity, workers), run);
  }

  // ----- an open scheduler with room accepts

  predicate OwnSteps(run: seq<Action>, c: nat) { forall i | 0 <= i < |run| :: run[i] == Advance(c) }

  lemma OneMore(s: State, run: seq<Action>, c: nat) returns (longer: seq<Action>)
    requires Valid(s, run) && OwnSteps(run, c) && Enabled(Exec(s, run), Advance(c))
    ensures Valid(s, longer) && OwnSteps(longer, c) && Exec(s, longer) == CallStep(Exec(s, run), c)
  {
    ValidAppend(s, run, Advance(c));
    longer := run + [Advance(c)];
  }

  // Past the stop flag, with its job built and a sender in hand.
  lemma HoldsSoon(s: State, c: nat) returns (run: seq<Action>)
    requires c < |s.calls| && s.calls[c].Entered? && !s.stopping && s.sender
    ensures Valid(s, run) && OwnSteps(run, c)
    ensures Exec(s, run) == s.(calls := s.calls[c := Holding(|s.jobs|)],
                               jobs := s.jobs + [NewJob(s.calls[c].task, c)])
  {
    run := OneMore(s, [], c);
    assert Exec(s, run) == s.(calls := s.calls[c := Admitted(s.calls[c].task)]);
    run := OneMore(s, run, c);
    assert Exec(s, run).calls == s.calls[c := HasJob(|s.jobs|)];
    run := OneMore(s, run, c);
    assert Exec(s, run).calls == s.calls[c := Holding(|s.jobs|)];
    assert Exec(s, run).jobs == s.jobs + [NewJob(s.calls[c].task, c)];
  }

  // From there to the answer.
  lemma SendsSoon(s: State, c: nat, j: nat) returns (run: seq<Action>)
    requires c < |s.calls| && s.calls[c] == Holding(j) && j < |s.jobs|
    requires |s.queue| < s.capacity && !AllExited(s)
    ensures Valid(s, run) && OwnSteps(run, c)
    ensures Exec(s, run) == s.(calls := s.calls[c := Accepted(j)], queue := s.queue + [j],
                               jobs := s.jobs[j := s.jobs[j].(place := Queued)],
                               depth := s.depth + 1, submitted := s.submitted + 1)
  {
    run := OneMore(s, [], c);
    assert Exec(s, run).calls == s.calls[c := Counted(j)] && Exec(s, run).workers == s.workers;
    assert AllExited(Exec(s, run)) == AllExited(s);
    run := OneMore(s, run, c);
    assert Exec(s, run).calls == s.calls[c := Enqueued(j)];
    run := OneMore(s, run, c);
    assert Exec(s, run).calls == s.calls[c := Accepted(j)];
    assert Exec(s, run).jobs == s.jobs[j := s.jobs[j].(place := Queued)];
  }

  lemma {:induction false} ValidConcat(s: State, a: seq<Action>, b: seq<Action>)
    requires Valid(s, a) && Valid(Exec(s, a), b)
    ensures Valid(s, a + b) && Exec(s, a + b) == Exec(Exec(s, a), b)
    decreases |a|
  {
    if a == [] {
      assert a + b == b;
    } else {
      assert (a + b)[1..] == a[1..] + b;
      ValidConcat(Next(s, a[0]), a[1..], b);
    }
  }

  // A worker only leaves after a shutdown, so an open scheduler has one.
  lemma OpenHasWorker(s: State)
    requires Inv(s) && !s.stopping
    ensures !AllExited(s)
  {
    assert !s.workers[0].Exited?;
  }

  // In every reachable open state with room, a call's own operations end in Ok, with its job at the
  // back of the queue and nothing else disturbed.
  lemma OpenSchedulerAccepts(s: State, c: nat) returns (run: seq<Action>)
    requires Reachable(s) && c < |s.calls| && s.calls[c].Entered?
    requires !s.stopping && |s.queue| < s.capacity
    ensures Valid(s, run) && OwnSteps(run, c)
    ensures Exec(s, run) == s.(calls := s.calls[c := Accepted(|s.jobs|)], queue := s.queue + [|s.jobs|],
                               jobs := s.jobs + [NewJob(s.calls[c].task, c).(place := Queued)],
                               depth := s.depth + 1, submitted := s.submitted + 1)
  {
    ReachableInv(s);
    OpenHasWorker(s);
    run := AcceptsSoon(s, c);
  }

  lemma AcceptsSoon(s: State, c: nat) returns (run: seq<Action>)
    requires c < |s.calls| && s.calls[c].Entered? && !s.stopping && s.sender && !AllExited(s)
    requires |s.queue| < s.capacity
    ensures Valid(s, run) && OwnSteps(run, c)
    ensures Exec(s, run) == s.(calls := s.calls[c := Accepted(|s.jobs|)], queue := s.queue + [|s.jobs|],
                               jobs := s.jobs + [NewJob(s.calls[c].task, c).(place := Queued)],
                               depth := s.depth + 1, submitted := s.submitted + 1)
  {
    var before := HoldsSoon(s, c);
    var t := s.(calls := s.calls[c := Holding(|s.jobs|)], jobs := s.jobs + [NewJob(s.calls[c].task, c)]);
    var after := SendsSoon(t, c, |s.jobs|);
    ValidConcat(s, before, after);
    run := before + after;
    LastPlaced(s.jobs, NewJob(s.calls[c].task, c));
    assert t.calls[c := Accepted(|s.jobs|)] == s.calls[c := Accepted(|s.jobs|)];
  }

  lemma LastPlaced(jobs: seq<Job>, job: Job)
    ensures (jobs + [job])[|jobs| := job.(place := Queued)] == jobs + [job.(place := Queued)]
  {
  }

  // ----- first in, first out

  // The job a step puts into the queue, and the job it takes out.
  function PutBy(s: State, a: Action): seq<nat> {
    if a.Advance? && a.call < |s.calls| && Enabled(s, a) && s.calls[a.call].Counted?
       && Next(s, a).calls[a.call].Enqueued? then [s.calls[a.call].job] else []
  }

  function TakenBy(s: State, a: Action): seq<nat> {
    if a.Work? && a.worker < |s.workers| && Enabled(s, a) && s.workers[a.worker].Idle?
       && Next(s, a).workers[a.worker].Got? then [Next(s, a).workers[a.worker].job] else []
  }

  function Puts(s: State, run: seq<Action>): seq<nat>
    requires Valid(s, run)
    decreases |run|
  {
    if run == [] then [] else PutBy(s, run[0]) + Puts(Next(s, run[0]), run[1..])
  }

  function Takes(s: State, run: seq<Action>): seq<nat>
    requires Valid(s, run)
    decreases |run|
  {
    if run == [] then [] else TakenBy(s, run[0]) + Takes(Next(s, run[0]), run[1..])
  }

  lemma QueueShape(s: State, a: Action)
    requires Enabled(s, a)
    ensures s.queue + PutBy(s, a) == TakenBy(s, a) + Next(s, a).queue
  {
  }

  // Jobs are taken in the order in which they were enqueued; what is left waits in that order.
  lemma {:induction false} JobsAreTakenInOrder(s: State, run: seq<Action>)
    requires Valid(s, run)
    ensures s.queue + Puts(s, run) == Takes(s, run) + Exec(s, run).queue
    decreases |run|
  {
    if run == [] {
      assert s.queue + [] == [] + s.queue;
    } else {
      var t := Next(s, run[0]);
      QueueShape(s, run[0]);
      JobsAreTakenInOrder(t, run[1..]);
      Regroup(s.queue, PutBy(s, run[0]), Puts(t, run[1..]), TakenBy(s, run[0]), t.queue, Takes(t, run[1..]),
              Exec(s, run).queue);
    }
  }

  lemma Regroup(q: seq<nat>, put: seq<nat>, puts: seq<nat>, taken: seq<nat>, mid: seq<nat>, takes: seq<nat>,
                end: seq<nat>)
    requires q + put == taken + mid && mid + puts == takes + end
    ensures q + (put + puts) == (taken + takes) + end
  {
    assert q + (put + puts) == (q + put) + puts == (taken + mid) + puts == taken + (mid + puts);
    assert taken + (takes + end) == (taken + takes) + end;
  }
}
