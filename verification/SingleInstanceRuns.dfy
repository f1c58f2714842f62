/** Runs of the hand-off: a genuine confirmation, a false one, and a request that arrives twice. */
module SingleInstanceRuns {
  import opened Common
  import opened ActivationCodec
  import opened SingleInstance
  import Q = ActivationQueue

  // ----- a confirmation that is not

  lemma {:induction false} ValidAppend(s: State, run: seq<Action>, a: Action) returns (longer: seq<Action>)
    requires Valid(s, run) && Enabled(Exec(s, run), a)
    ensures longer == run + [a] && Valid(s, longer) && Exec(s, longer) == Next(Exec(s, run), a)
    decreases |run|
  {
    longer := run + [a];
    if run != [] {
      var rest := ValidAppend(Next(s, run[0]), run[1..], a);
      assert longer[1..] == rest;
    }
  }

  function Idle(): Q.State { Q.Init(QUEUE_CAPACITY) }

  function Owner(request: Request, at: Endpoint, stage: Stage): Process {
    Process(request, Some(at.token), stage, Idle())
  }

  lemma OwnerServes(first: Request, at: Endpoint) returns (run: seq<Action>)
    ensures Valid(Init(), run)
    ensures Exec(Init(), run) == State([Owner(first, at, Owning(at))], Some(0), Some(at),
                                       map[at.port := Ours(0)], {at.token}, [])
  {
    run := ValidAppend(Init(), [], Launch(first));
    run := ValidAppend(Init(), run, TryLock(0));
    run := ValidAppend(Init(), run, ClearEndpoint(0, true));
    assert Exec(Init(), run) == State([Process(first, None, Cleared, Idle())], Some(0), None, map[], {}, []);
    run := ValidAppend(Init(), run, Bind(0, at));
    run := ValidAppend(Init(), run, Publish(0));
    run := ValidAppend(Init(), run, Serve(0));
    assert Exec(Init(), run).processes == [Owner(first, at, Owning(at))];
  }

  lemma ClientReadsEndpoint(first: Request, second: Request, at: Endpoint) returns (run: seq<Action>)
    ensures Valid(Init(), run)
    ensures Exec(Init(), run)
            == State([Owner(first, at, Owning(at)), Process(second, None, Connecting(at), Idle())], Some(0), Some(at),
                     map[at.port := Ours(0)], {at.token}, [])
  {
    run := OwnerServes(first, at);
    run := ValidAppend(Init(), run, Launch(second));
    run := ValidAppend(Init(), run, TryLock(1));
    run := ValidAppend(Init(), run, ReadEndpoint(1));
    assert Exec(Init(), run).processes
        == [Owner(first, at, Owning(at)), Process(second, None, Connecting(at), Idle())];
  }

  lemma OutsiderTakesPort(first: Request, second: Request, at: Endpoint) returns (run: seq<Action>)
    ensures Valid(Init(), run)
    ensures Exec(Init(), run)
            == State([Owner(first, at, Stopped(at)), Process(second, None, Connecting(at), Idle())], Some(0), Some(at),
                     map[at.port := Outsider], {at.token}, [])
  {
    run := ClientReadsEndpoint(first, second, at);
    run := ValidAppend(Init(), run, Stop(0));
    assert Exec(Init(), run).ports == map[];
    run := ValidAppend(Init(), run, OutsideBind(at.port));
    assert Exec(Init(), run).processes
        == [Owner(first, at, Stopped(at)), Process(second, None, Connecting(at), Idle())];
  }

  lemma ClientReachesOutsider(first: Request, second: Request, at: Endpoint) returns (run: seq<Action>)
    requires EncodeRequest(at.token, second).Ok?
    ensures Valid(Init(), run)
    ensures var s := Exec(Init(), run);
            && s.processes == [Owner(first, at, Stopped(at)), Process(second, None, Waiting(at, 0), Idle())]
            && |s.connections| == 1 && s.connections[0].server.None? && s.connections[0].reply.None?
  {
    run := OutsiderTakesPort(first, second, at);
    run := ValidAppend(Init(), run, Connect(1, true));
  }

  // While an owner is going away its port is free and its endpoint file still there. A program that
  // takes the port and echoes the request id makes `acquire` return Forwarded for a request that
  // nobody enqueued.
  lemma ForwardedMayBeFalse(first: Request, second: Request, at: Endpoint) returns (run: seq<Action>)
    requires EncodeRequest(at.token, second).Ok?
    ensures Valid(Init(), run)
    ensures var s := Exec(Init(), run);
            && |s.processes| == 2 && s.processes[1].stage == Forwarded(at, 0)
            && !EnqueuedOver(s, 0, second)
            && forall p: nat | p < |s.processes| :: s.processes[p].queue.sent == []
  {
    var reply := AckBytes(Ack(second.id, Accepted));
    AckRoundTrip(Ack(second.id, Accepted));
    run := ClientReachesOutsider(first, second, at);
    run := ValidAppend(Init(), run, OutsideAnswer(0, reply));
    assert reply[..Min(|reply|, |reply|)] == reply;
    run := ValidAppend(Init(), run, ReadAck(1, |reply|, true));
  }

  // ----- confirmations that are, and requests that arrive twice

  ghost function WithQueue(s: State, q: nat, queue: Q.State): State
    requires q < |s.processes|
  {
    s.(processes := s.processes[q := s.processes[q].(queue := queue)])
  }

  // Any run of a queue is a run of the program that has it.
  lemma {:induction false} QueueRun(s: State, q: nat, moves: seq<Q.Action>) returns (run: seq<Action>)
    requires q < |s.processes| && !s.processes[q].stage.Crashed? && Q.Valid(s.processes[q].queue, moves)
    ensures Valid(s, run) && Exec(s, run) == WithQueue(s, q, Q.Exec(s.processes[q].queue, moves))
    decreases |moves|
  {
    if moves == [] {
      run := [];
      assert WithQueue(s, q, s.processes[q].queue) == s;
    } else {
      var t := Next(s, QueueMove(q, moves[0]));
      var rest := QueueRun(t, q, moves[1..]);
      run := [QueueMove(q, moves[0])] + rest;
      assert run[1..] == rest;
    }
  }

  function Entering(queue: Q.State, request: Request): Q.State {
    queue.(senders := queue.senders + [Q.Entered(request)])
  }

  function Entered(queue: Q.State, request: Request): Q.State {
    queue.(senders := queue.senders + [Q.Sent(request)], queued := queue.queued + 1,
           channel := queue.channel + [request], sent := queue.sent + [request])
  }

  function AnsweredOver(conn: Connection, slot: nat, request: Request): Connection {
    conn.(handler := Answered(Some(slot)), reply := Some(AckBytes(Ack(request.id, Accepted))))
  }

  // An unread connection to an owner whose queue has room.
  predicate Ready(s: State, c: nat, q: nat, request: Request) {
    && c < |s.connections| && s.connections[c].server == Some(q) && s.connections[c].handler.Fresh?
    && EncodeRequest(s.connections[c].auth, request) == Ok(s.connections[c].frame)
    && |s.connections[c].frame| <= MAX_FRAME
    && q < |s.processes| && !s.processes[q].stage.Crashed?
    && HasRoom(s.processes[q].queue)
  }

  predicate HasRoom(queue: Q.State) { queue.half.Live? && !queue.closed && queue.queued < queue.capacity }

  lemma Decodes(s: State, c: nat, q: nat, request: Request) returns (a: Action)
    requires Ready(s, c, q, request)
    ensures Enabled(s, a)
    ensures Next(s, a) == WithQueue(s, q, Entering(s.processes[q].queue, request))
                          .(connections := s.connections[c := s.connections[c].(handler :=
                              Sending(|s.processes[q].queue.senders|))])
  {
    var frame := s.connections[c].frame;
    a := Decode(c, |frame|, true);
    RequestRoundTrip(s.connections[c].auth, request);
    assert frame[..Min(|frame|, |frame|)] == frame;
  }

  lemma WithQueueTwice(s: State, q: nat, first: Q.State, second: Q.State, connections: seq<Connection>)
    requires q < |s.processes|
    ensures WithQueue(WithQueue(s, q, first).(connections := connections), q, second)
            == WithQueue(s, q, second).(connections := connections)
  {
  }

  lemma ValidPrepend(s: State, a: Action, run: seq<Action>)
    requires Enabled(s, a) && Valid(Next(s, a), run)
    ensures Valid(s, [a] + run) && Exec(s, [a] + run) == Exec(Next(s, a), run)
  {
    assert ([a] + run)[1..] == run;
  }

  // The state once the handler's `try_send` has returned Ok.
  lemma HandlerSends(s: State, c: nat, q: nat, request: Request) returns (run: seq<Action>)
    requires Ready(s, c, q, request)
    ensures Valid(s, run)
    ensures Exec(s, run)
            == WithQueue(s, q, Entered(s.processes[q].queue, request))
               .(connections := s.connections[c := s.connections[c].(handler :=
                   Sending(|s.processes[q].queue.senders|))])
  {
    var queue, slot := s.processes[q].queue, |s.processes[q].queue.senders|;
    var a := Decodes(s, c, q, request);
    var t := Next(s, a);
    var moves := SendMoves(queue, request);
    var more := QueueRun(t, q, moves);
    ValidPrepend(s, a, more);
    run := [a] + more;
    WithQueueTwice(s, q, Entering(queue, request), Entered(queue, request), t.connections);
  }

  lemma SendMoves(queue: Q.State, request: Request) returns (moves: seq<Q.Action>)
    requires HasRoom(queue)
    ensures Q.Valid(Entering(queue, request), moves)
    ensures Q.Exec(Entering(queue, request), moves) == Entered(queue, request)
  {
    moves := Q.SendsWithRoom(Entering(queue, request), |queue.senders|);
    EnteringThenSent(queue, request);
  }

  lemma EnteringThenSent(queue: Q.State, request: Request)
    ensures Entering(queue, request).senders[|queue.senders| := Q.Sent(request)] == Entered(queue, request).senders
  {
  }

  lemma HandlerResponds(s: State, c: nat, q: nat, slot: nat, request: Request)
    requires c < |s.connections| && s.connections[c].server == Some(q) && s.connections[c].handler == Sending(slot)
    requires q < |s.processes| && !s.processes[q].stage.Crashed?
    requires slot < |s.processes[q].queue.senders| && s.processes[q].queue.senders[slot] == Q.Sent(request)
    ensures Enabled(s, Respond(c))
    ensures Next(s, Respond(c))
            == s.(connections := s.connections[c := AnsweredOver(s.connections[c], slot, request)])
  {
  }

  // What a handler does with an authorised request while the queue is open and has room.
  lemma HandlerServes(s: State, c: nat, q: nat, request: Request) returns (run: seq<Action>)
    requires Ready(s, c, q, request)
    ensures Valid(s, run)
    ensures Exec(s, run)
            == WithQueue(s, q, Entered(s.processes[q].queue, request))
               .(connections := s.connections[c := AnsweredOver(s.connections[c],
                                                                |s.processes[q].queue.senders|, request)])
  {
    run := HandlerSends(s, c, q, request);
    HandlerResponds(Exec(s, run), c, q, |s.processes[q].queue.senders|, request);
    run := ValidAppend(s, run, Respond(c));
  }

  lemma FrameFits(token: Id16, request: Request)
    requires EncodeRequest(token, request).Ok?
    ensures |EncodeRequest(token, request).value| <= MAX_FRAME
  {
  }

  // An owner that serves, and a second process.
  function Serving(first: Request, second: Request, at: Endpoint, stage: Stage, queue: Q.State,
                   connections: seq<Connection>): State
  {
    State([Process(first, Some(at.token), Owning(at), queue), Process(second, None, stage, Idle())], Some(0), Some(at),
          map[at.port := Ours(0)], {at.token}, connections)
  }

  function Asked(second: Request, at: Endpoint): Connection
    requires EncodeRequest(at.token, second).Ok?
  {
    Connection(Some(1), Some(0), at.token, EncodeRequest(at.token, second).value, Fresh, None)
  }

  // One attempt of the second process, from the endpoint it read to the reply of the owner's handler.
  lemma AttemptArrives(first: Request, second: Request, at: Endpoint, queue: Q.State, connections: seq<Connection>)
    returns (run: seq<Action>)
    requires EncodeRequest(at.token, second).Ok? && HasRoom(queue)
    ensures var s := Serving(first, second, at, Connecting(at), queue, connections);
            && Valid(s, run)
            && Exec(s, run) == Serving(first, second, at, Waiting(at, |connections|), Entered(queue, second),
                 connections + [AnsweredOver(Asked(second, at), |queue.senders|, second)])
  {
    var s := Serving(first, second, at, Connecting(at), queue, connections);
    var c := |connections|;
    var t := AttemptConnects(first, second, at, queue, connections);
    var more := HandlerServes(t, c, 0, second);
    ValidPrepend(s, Connect(1, true), more);
    run := [Connect(1, true)] + more;
    var answered := AnsweredOver(Asked(second, at), |queue.senders|, second);
    assert t.connections[c := answered] == connections + [answered];
    assert t.processes[0 := t.processes[0].(queue := Entered(queue, second))]
        == Serving(first, second, at, Waiting(at, c), Entered(queue, second), []).processes;
  }

  lemma AttemptConnects(first: Request, second: Request, at: Endpoint, queue: Q.State, connections: seq<Connection>)
    returns (t: State)
    requires EncodeRequest(at.token, second).Ok? && HasRoom(queue)
    ensures var s := Serving(first, second, at, Connecting(at), queue, connections);
            && Enabled(s, Connect(1, true)) && t == Next(s, Connect(1, true))
            && t == Serving(first, second, at, Waiting(at, |connections|), queue, connections + [Asked(second, at)])
            && Ready(t, |connections|, 0, second)
  {
    var s := Serving(first, second, at, Connecting(at), queue, connections);
    FrameFits(at.token, second);
    t := Next(s, Connect(1, true));
    assert t.processes == Serving(first, second, at, Waiting(at, |connections|), queue, []).processes;
  }

  // The ordinary run: the request is in the owner's queue and the client returns Forwarded.
  lemma ForwardedMayBeTrue(first: Request, second: Request, at: Endpoint) returns (run: seq<Action>)
    requires EncodeRequest(at.token, second).Ok?
    ensures Valid(Init(), run)
    ensures var s := Exec(Init(), run);
            |s.processes| == 2 && s.processes[1].stage == Forwarded(at, 0) && EnqueuedOver(s, 0, second)
  {
    run := ClientReadsEndpoint(first, second, at);
    var more := AttemptArrives(first, second, at, Idle(), []);
    ValidConcat(Init(), run, more);
    run := run + more;
    var reply := AckBytes(Ack(second.id, Accepted));
    AckRoundTrip(Ack(second.id, Accepted));
    assert reply[..Min(|reply|, |reply|)] == reply;
    run := ValidAppend(Init(), run, ReadAck(1, |reply|, true));
  }

  // An acknowledgement that is lost on the way makes the client try again.
  lemma ClientRetries(first: Request, second: Request, at: Endpoint, queue: Q.State, c: nat,
                      connections: seq<Connection>)
    returns (run: seq<Action>)
    requires c < |connections|
    ensures var s := Serving(first, second, at, Waiting(at, c), queue, connections);
            Valid(s, run) && Exec(s, run) == Serving(first, second, at, Connecting(at), queue, connections)
  {
    var s := Serving(first, second, at, Waiting(at, c), queue, connections);
    run := ValidAppend(s, [], ReadAck(1, 0, false));
    run := ValidAppend(s, run, Retry(1));
    run := ValidAppend(s, run, TryLock(1));
    run := ValidAppend(s, run, ReadEndpoint(1));
    assert Exec(s, run).processes == Serving(first, second, at, Connecting(at), queue, []).processes;
  }

  // So a request may be enqueued once per attempt: here twice, although it is forwarded once.
  lemma RetryMayEnqueueTwice(first: Request, second: Request, at: Endpoint) returns (run: seq<Action>)
    requires EncodeRequest(at.token, second).Ok?
    ensures Valid(Init(), run)
    ensures var s := Exec(Init(), run);
            && |s.processes| == 2 && s.processes[0].queue.sent == [second, second]
            && |s.connections| == 2 && s.connections[0].client == s.connections[1].client == Some(1)
  {
    run := ClientReadsEndpoint(first, second, at);
    var once := Entered(Idle(), second);
    var answered := AnsweredOver(Asked(second, at), 0, second);
    var more := AttemptArrives(first, second, at, Idle(), []);
    ValidConcat(Init(), run, more);
    run := run + more;
    assert [] + [answered] == [answered];
    more := ClientRetries(first, second, at, once, 0, [answered]);
    ValidConcat(Init(), run, more);
    run := run + more;
    more := AttemptArrives(first, second, at, once, [answered]);
    ValidConcat(Init(), run, more);
    run := run + more;
  }

  // ----- what a process does when nobody interferes

  // The state with process `p` at a stage, with the token it drew.
  ghost function Staged(s: State, p: nat, stage: Stage, token: Option<Id16>): State
    requires p < |s.processes|
  {
    s.(processes := s.processes[p := s.processes[p].(stage := stage, token := token)])
  }

  predicate OwnSteps(run: seq<Action>, p: nat) { forall i | 0 <= i < |run| :: Owned(run[i]) && run[i].p == p }

  lemma OneMore(s: State, run: seq<Action>, a: Action, p: nat) returns (longer: seq<Action>)
    requires Valid(s, run) && OwnSteps(run, p) && Enabled(Exec(s, run), a) && Owned(a) && a.p == p
    ensures Valid(s, longer) && OwnSteps(longer, p) && Exec(s, longer) == Next(Exec(s, run), a)
  {
    longer := ValidAppend(s, run, a);
  }

  lemma LocksAndClears(s: State, p: nat, removed: bool) returns (run: seq<Action>)
    requires p < |s.processes| && s.processes[p].stage.Trying? && s.lock.None?
    ensures Valid(s, run) && OwnSteps(run, p)
    ensures Exec(s, run) == Staged(s, p, Cleared, s.processes[p].token)
                            .(lock := Some(p), endpoint := if removed then None else s.endpoint)
  {
    run := OneMore(s, [], TryLock(p), p);
    assert Exec(s, run) == Staged(s, p, Locked, s.processes[p].token).(lock := Some(p));
    run := OneMore(s, run, ClearEndpoint(p, removed), p);
    assert Exec(s, run).processes == Staged(s, p, Cleared, s.processes[p].token).processes;
  }

  lemma BindsAndServes(s: State, p: nat, at: Endpoint) returns (run: seq<Action>)
    requires p < |s.processes| && s.processes[p].stage.Cleared? && at.port !in s.ports && at.token !in s.tokens
    ensures Valid(s, run) && OwnSteps(run, p)
    ensures Exec(s, run) == Staged(s, p, Owning(at), Some(at.token))
                            .(endpoint := Some(at), ports := s.ports[at.port := Ours(p)],
                              tokens := s.tokens + {at.token})
  {
    run := OneMore(s, [], Bind(p, at), p);
    assert Exec(s, run).processes == Staged(s, p, Bound(at), Some(at.token)).processes;
    run := OneMore(s, run, Publish(p), p);
    assert Exec(s, run).processes == Staged(s, p, Published(at), Some(at.token)).processes;
    run := OneMore(s, run, Serve(p), p);
    assert Exec(s, run).processes == Staged(s, p, Owning(at), Some(at.token)).processes;
  }

  // A free lock is taken: whatever endpoint file was left behind, and whether or not it can be removed,
  // the process's own steps make it the owner, published on its own port with its own token.
  lemma FreeLockIsTaken(s: State, p: nat, at: Endpoint, removed: bool) returns (run: seq<Action>)
    requires p < |s.processes| && s.processes[p].stage.Trying? && s.lock.None?
    requires at.port !in s.ports && at.token !in s.tokens
    ensures Valid(s, run) && OwnSteps(run, p)
    ensures Exec(s, run) == Staged(s, p, Owning(at), Some(at.token))
                            .(lock := Some(p), endpoint := Some(at), ports := s.ports[at.port := Ours(p)],
                              tokens := s.tokens + {at.token})
  {
    var before := LocksAndClears(s, p, removed);
    var t := Staged(s, p, Cleared, s.processes[p].token)
             .(lock := Some(p), endpoint := if removed then None else s.endpoint);
    var after := BindsAndServes(t, p, at);
    ValidConcat(s, before, after);
    run := before + after;
    assert Staged(t, p, Owning(at), Some(at.token)).processes == Staged(s, p, Owning(at), Some(at.token)).processes;
  }

  // A held lock sends the process to the endpoint file: it goes on to connect to what the file names,
  // and sleeps before trying again when there is none.
  lemma HeldLockIsRead(s: State, p: nat) returns (run: seq<Action>)
    requires p < |s.processes| && s.processes[p].stage.Trying? && s.lock.Some?
    ensures Valid(s, run) && OwnSteps(run, p)
    ensures Exec(s, run) == Staged(s, p, if s.endpoint.Some? then Connecting(s.endpoint.value) else Sleeping,
                                   s.processes[p].token)
  {
    run := OneMore(s, [], TryLock(p), p);
    assert Exec(s, run) == Staged(s, p, Reading, s.processes[p].token);
    run := OneMore(s, run, ReadEndpoint(p), p);
    assert Exec(s, run).processes
        == Staged(s, p, if s.endpoint.Some? then Connecting(s.endpoint.value) else Sleeping,
                  s.processes[p].token).processes;
  }

  // Dropping the owner gives everything back: the port, the endpoint file and the lock.
  lemma OwnerLeavesCleanly(s: State, p: nat) returns (run: seq<Action>)
    requires p < |s.processes| && s.processes[p].stage.Owning? && s.lock == Some(p)
    ensures Valid(s, run) && OwnSteps(run, p)
    ensures var t := Exec(s, run);
            && t.lock == None && t.endpoint == None && t.connections == s.connections
            && t.processes == s.processes[p := s.processes[p].(stage := Retired)]
            && (forall port :: port in t.ports <==> port in s.ports && s.ports[port] != Ours(p))
            && (forall port | port in t.ports :: t.ports[port] == s.ports[port])
  {
    run := OneMore(s, [], Stop(p), p);
    var t := Exec(s, run);
    assert t.processes[p].stage.Stopped? && t.lock == Some(p);
    run := OneMore(s, run, RemoveEndpoint(p, true), p);
    run := OneMore(s, run, Unlock(p), p);
    assert Exec(s, run).processes == s.processes[p := s.processes[p].(stage := Retired)];
  }

  // ----- what the handler answers

  // Refusals are told apart: a full queue, a closed one, and a request that is malformed or carries
  // another token; none of them touches a queue any more.
  lemma HandlerTells(s: State, c: nat)
    requires Enabled(s, Respond(c))
    ensures var t := Next(s, Respond(c));
            var sender := s.processes[s.connections[c].server.value].queue.senders[s.connections[c].handler.slot];
            && t.processes == s.processes && c < |t.connections| && t.connections[c].reply.Some?
            && DecodeAck(t.connections[c].reply.value)
               == Ok(Ack(sender.item.id,
                         if sender.Sent? then Accepted
                         else if sender == Q.Failed(sender.item, Q.Full) then QueueFull else ShuttingDown))
  {
    var sender := s.processes[s.connections[c].server.value].queue.senders[s.connections[c].handler.slot];
    AckRoundTrip(Ack(sender.item.id, Accepted));
    AckRoundTrip(Ack(sender.item.id, QueueFull));
    AckRoundTrip(Ack(sender.item.id, ShuttingDown));
  }

  // A request that could be read is refused under its own id, anything else under zeros.
  lemma HandlerRefuses(s: State, c: nat, arrived: nat, ok: bool)
    requires Enabled(s, Decode(c, arrived, ok))
    requires var conn := s.connections[c];
             var bytes := conn.frame[..Min(arrived, |conn.frame|)];
             !ok || |bytes| > MAX_FRAME || DecodeRequest(bytes).Err? || DecodeRequest(bytes).value.0 != conn.auth
    ensures var t := Next(s, Decode(c, arrived, ok));
            && t.processes == s.processes && c < |t.connections| && t.connections[c].reply.Some?
            && var bytes := s.connections[c].frame[..Min(arrived, |s.connections[c].frame|)];
               var readable := ok && |bytes| <= MAX_FRAME && DecodeRequest(bytes).Ok?;
               DecodeAck(t.connections[c].reply.value)
               == Ok(Ack(if readable then DecodeRequest(bytes).value.1.id else seq(16, _ => 0), InvalidRequest))
  {
    match Admit(s.connections[c], arrived, ok)
    case Err(id) => AckRoundTrip(Ack(id, InvalidRequest));
  }

  // ----- what the client makes of the answer

  // A connection is opened to whoever listens, with the request under the token from the file.
  lemma ClientConnects(s: State, p: nat)
    requires Enabled(s, Connect(p, true)) && s.processes[p].stage.to.port in s.ports
    requires EncodeRequest(s.processes[p].stage.to.token, s.processes[p].request).Ok?
    ensures var t, to := Next(s, Connect(p, true)), s.processes[p].stage.to;
            && |t.connections| == |s.connections| + 1 && t.connections[..|s.connections|] == s.connections
            && t.processes == s.processes[p := s.processes[p].(stage := Waiting(to, |s.connections|))]
            && var conn := t.connections[|s.connections|];
               && conn.client == Some(p) && conn.reply.None? && conn.handler.Fresh?
               && DecodeRequest(conn.frame) == Ok((to.token, s.processes[p].request))
  {
    RequestRoundTrip(s.processes[p].stage.to.token, s.processes[p].request);
  }

  // The client returns Forwarded exactly for a whole Accepted acknowledgement of its own request;
  // for anything else it sleeps and tries again.
  lemma AckDecides(s: State, p: nat, ack: Ack, arrived: nat)
    requires Enabled(s, ReadAck(p, arrived, true))
    requires s.connections[s.processes[p].stage.conn].reply == Some(AckBytes(ack))
    ensures var stage := Next(s, ReadAck(p, arrived, true)).processes[p].stage;
            if ack == Ack(s.processes[p].request.id, Accepted) && arrived >= |AckBytes(ack)|
            then stage == Forwarded(s.processes[p].stage.to, s.processes[p].stage.conn) else stage == Sleeping
  {
    var bytes, request := AckBytes(ack), s.processes[p].request;
    AckRoundTrip(ack);
    if arrived >= |bytes| {
      assert bytes[..|bytes|] == bytes;
    } else {
      FrameLengthIsChecked(ACK_KIND, ack.id + [StatusByte(ack.status)], arrived, [0]);
    }
  }
}
