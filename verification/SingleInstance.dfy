/** The single-instance hand-off: an OS lock, an endpoint file, and activation
    requests forwarded over loopback connections into the owner's queue. One action is
    one operation of one process, of one connection handler, of a queue, or of a program
    that is none of ours; actions interleave arbitrarily and any process may crash
    between two of its own.

    Taken from the operating system: the lock is exclusive and is released when
    its holder goes away; a port has one listener at a time, but any program may listen
    on a free one; renaming a file is atomic; a fresh token differs from every earlier one. */
module SingleInstance {
  import opened Common
  import opened ActivationCodec
  import Q = ActivationQueue

  const QUEUE_CAPACITY := 64

  datatype Endpoint = Endpoint(port: nat, token: Id16)

  // Where a process stands in `acquire`, or in the life of the owner it became.
  datatype Stage =
    | Trying                                  // about to `try_lock`
    | Locked                                  // holds the lock, about to remove a stale endpoint
    | Cleared                                 // about to bind and draw a token
    | Bound(at: Endpoint)                     // about to rename the endpoint file into place
    | Published(at: Endpoint)                 // about to spawn the listener thread
    | Owning(at: Endpoint)
    | Stopped(at: Endpoint)                   // listener joined, about to remove the endpoint
    | Removed                                 // about to unlock
    | Retired
    | Reading                                 // lock was taken, about to read the endpoint
    | Connecting(to: Endpoint)
    | Waiting(to: Endpoint, conn: nat)        // frame written, about to read the ACK
    | Sleeping
    | Forwarded(to: Endpoint, conn: nat)      // returned Forwarded
    | Failed
    | Crashed
  {
    predicate HoldsLock() {
      Locked? || Cleared? || Bound? || Published? || Owning? || Stopped? || Removed?
    }

    predicate HasPublished() { Published? || Owning? || Stopped? }

    predicate HasBound() { Bound? || HasPublished() }

    predicate Listens() { Bound? || Published? || Owning? }
  }

  // `queue` is the activation queue that `start_owner` creates.
  datatype Process = Process(request: Request, token: Option<Id16>, stage: Stage, queue: Q.State)

  // Who listens on a port.
  datatype Listener = Ours(p: nat) | Outsider

  // Where the handler of a connection stands. `slot` is its `try_send` in the queue.
  datatype Handler =
    | Fresh                                   // the frame is not read yet
    | Sending(slot: nat)
    | Answered(entered: Option<nat>)          // replied; `entered` if `try_send` returned Ok

  // One accepted connection; `server` is the process of ours that accepted it, if any.
  datatype Connection = Connection(
    client: Option<nat>,
    server: Option<nat>,
    auth: Id16,                               // the server's token
    frame: seq<Byte>,
    handler: Handler,
    reply: Option<seq<Byte>>
  )

  datatype State = State(
    processes: seq<Process>,
    lock: Option<nat>,
    endpoint: Option<Endpoint>,
    ports: map<nat, Listener>,
    tokens: set<Id16>,                        // every token drawn so far
    connections: seq<Connection>
  )

  datatype Action =
    // a process
    | Launch(request: Request)
    | TryLock(p: nat)
    | ClearEndpoint(p: nat, removed: bool)    // a failing `remove_file` is ignored
    | Bind(p: nat, at: Endpoint)
    | Publish(p: nat)
    | Serve(p: nat)
    | Abort(p: nat)                           // `start_owner` returns an error
    | Stop(p: nat)
    | RemoveEndpoint(p: nat, removed: bool)
    | Unlock(p: nat)
    | ReadEndpoint(p: nat)
    | Connect(p: nat, ok: bool)
    | ReadAck(p: nat, arrived: nat, ok: bool)
    | Retry(p: nat)
    | GiveUp(p: nat)
    | Crash(p: nat)
    | QueueMove(p: nat, move: Q.Action)       // any operation on the owner's queue
    // the handler of a connection
    | Decode(conn: nat, arrived: nat, ok: bool)
    | Respond(conn: nat)
    // other programs: connect and send anything, listen on a free port and answer anything
    | Stranger(port: nat, frame: seq<Byte>)
    | OutsideBind(port: nat)
    | OutsideRelease(port: nat)
    | OutsideAnswer(conn: nat, bytes: seq<Byte>)

  function Init(): State { State([], None, None, map[], {}, []) }

  predicate At(s: State, p: nat) { p < |s.processes| }

  // A process of ours that accepts connections on the port.
  predicate Accepting(s: State, port: nat, q: nat) {
    port in s.ports && s.ports[port] == Ours(q) && At(s, q) && s.processes[q].token.Some?
  }

  // A connection to a process of ours that is still there.
  predicate Served(s: State, c: nat) {
    && c < |s.connections| && s.connections[c].server.Some? && At(s, s.connections[c].server.value)
    && !s.processes[s.connections[c].server.value].stage.Crashed?
  }

  predicate Enabled(s: State, a: Action) {
    match a
    case Launch(_) => true
    case TryLock(p) => At(s, p) && s.processes[p].stage.Trying?
    case ClearEndpoint(p, _) => At(s, p) && s.processes[p].stage.Locked?
    case Bind(p, at) => At(s, p) && s.processes[p].stage.Cleared? && at.port !in s.ports && at.token !in s.tokens
    case Publish(p) => At(s, p) && s.processes[p].stage.Bound?
    case Serve(p) => At(s, p) && s.processes[p].stage.Published?
    case Abort(p) => At(s, p) && (s.processes[p].stage.Locked? || s.processes[p].stage.Cleared?
                                  || s.processes[p].stage.Bound? || s.processes[p].stage.Published?)
    case Stop(p) => At(s, p) && s.processes[p].stage.Owning?
    case RemoveEndpoint(p, _) => At(s, p) && s.processes[p].stage.Stopped?
    case Unlock(p) => At(s, p) && s.processes[p].stage.Removed?
    case ReadEndpoint(p) => At(s, p) && s.processes[p].stage.Reading?
    case Connect(p, _) => At(s, p) && s.processes[p].stage.Connecting?
    case ReadAck(p, _, _) => At(s, p) && s.processes[p].stage.Waiting? && s.processes[p].stage.conn < |s.connections|
    case Retry(p) => At(s, p) && s.processes[p].stage.Sleeping?
    case GiveUp(p) => At(s, p) && (s.processes[p].stage.Sleeping? || s.processes[p].stage.Reading?)
    case Crash(p) => At(s, p) && !s.processes[p].stage.Crashed?
    case QueueMove(p, move) => At(s, p) && !s.processes[p].stage.Crashed? && Q.Enabled(s.processes[p].queue, move)
    case Decode(c, _, _) => Served(s, c) && s.connections[c].handler.Fresh?
    case Respond(c) =>
      && Served(s, c) && s.connections[c].handler.Sending?
      && var senders := s.processes[s.connections[c].server.value].queue.senders;
         var k := s.connections[c].handler.slot;
         k < |senders| && (senders[k].Sent? || senders[k].Failed?)
    case Stranger(port, _) => exists q | 0 <= q < |s.processes| :: Accepting(s, port, q)
    case OutsideBind(port) => port !in s.ports
    case OutsideRelease(port) => port in s.ports && s.ports[port] == Outsider
    case OutsideAnswer(c, _) => c < |s.connections| && s.connections[c].server.None? && s.connections[c].reply.None?
  }

  function Go(s: State, p: nat, stage: Stage): State
    requires At(s, p)
  {
    s.(processes := s.processes[p := s.processes[p].(stage := stage)])
  }

  // Leaving for good: the kernel closes the lock file and the listening socket.
  function Leave(s: State, p: nat, stage: Stage): State
    requires At(s, p)
  {
    Go(s, p, stage).(lock := if s.lock == Some(p) then None else s.lock,
                     ports := map q | q in s.ports && s.ports[q] != Ours(p) :: s.ports[q])
  }

  function Opened(s: State, client: Option<nat>, port: nat, frame: seq<Byte>): Connection
    requires port in s.ports
  {
    match s.ports[port]
    case Ours(q) =>
      if At(s, q) && s.processes[q].token.Some?
      then Connection(client, Some(q), s.processes[q].token.value, frame, Fresh, None)
      else Connection(client, None, seq(16, _ => 0), frame, Fresh, None)
    case Outsider => Connection(client, None, seq(16, _ => 0), frame, Fresh, None)
  }

  // `acquire`, `start_owner` and `Drop` of the owner
  function OwnerStep(s: State, a: Action): State
    requires Enabled(s, a)
  {
    match a
    case TryLock(p) =>
      if s.lock.None? then Go(s, p, Locked).(lock := Some(p)) else Go(s, p, Reading)
    case ClearEndpoint(p, removed) => Go(s, p, Cleared).(endpoint := if removed then None else s.endpoint)
    case Bind(p, at) =>
      s.(processes := s.processes[p := s.processes[p].(stage := Bound(at), token := Some(at.token))],
         ports := s.ports[at.port := Ours(p)], tokens := s.tokens + {at.token})
    case Publish(p) => Go(s, p, Published(s.processes[p].stage.at)).(endpoint := Some(s.processes[p].stage.at))
    case Serve(p) => Go(s, p, Owning(s.processes[p].stage.at))
    case Abort(p) => Leave(s, p, Failed)
    case Stop(p) => Leave(s, p, Stopped(s.processes[p].stage.at)).(lock := s.lock)
    case RemoveEndpoint(p, removed) => Go(s, p, Removed).(endpoint := if removed then None else s.endpoint)
    case Unlock(p) => Leave(s, p, Retired)
    case Crash(p) => Leave(s, p, Crashed)
    case _ => s
  }

  // The end of `forward_activation`: is this the ACK for the caller's own request?
  predicate Confirms(reply: seq<Byte>, arrived: nat, request: Request) {
    DecodeAck(reply[..Min(arrived, |reply|)]) == Ok(Ack(request.id, Accepted))
  }

  // The retry loop of `acquire` and `forward_activation`
  function ClientStep(s: State, a: Action): State
    requires Enabled(s, a)
  {
    match a
    case ReadEndpoint(p) => Go(s, p, if s.endpoint.Some? then Connecting(s.endpoint.value) else Sleeping)
    case Connect(p, ok) =>
      var to := s.processes[p].stage.to;
      var frame := EncodeRequest(to.token, s.processes[p].request);
      if ok && frame.Ok? && to.port in s.ports then
        Go(s, p, Waiting(to, |s.connections|))
        .(connections := s.connections + [Opened(s, Some(p), to.port, frame.value)])
      else Go(s, p, Sleeping)
    case ReadAck(p, arrived, ok) =>
      var Waiting(to, c) := s.processes[p].stage;
      Go(s, p, if ok && s.connections[c].reply.Some?
                  && Confirms(s.connections[c].reply.value, arrived, s.processes[p].request)
               then Forwarded(to, c) else Sleeping)
    case Retry(p) => Go(s, p, Trying)
    case GiveUp(p) => Go(s, p, Failed)
    case _ => s
  }

  function AckBytes(ack: Ack): seq<Byte> {
    AckRoundTrip(ack);
    EncodeAck(ack).value
  }

  function Refused(conn: Connection, id: Id16): Connection {
    conn.(handler := Answered(None), reply := Some(AckBytes(Ack(id, InvalidRequest))))
  }

  // What the handler makes of the bytes it read: a request to enqueue, or the id to refuse.
  function Admit(conn: Connection, arrived: nat, ok: bool): Result<Request, Id16> {
    var bytes := conn.frame[..Min(arrived, |conn.frame|)];
    var zero := seq(16, _ => 0);
    if !ok || |bytes| > MAX_FRAME then Err(zero)
    else
      match DecodeRequest(bytes)
      case Err(_) => Err(zero)
      case Ok((token, request)) => if token == conn.auth then Ok(request) else Err(request.id)
  }

  // The reply once `try_send` has returned.
  function Reported(conn: Connection, sender: Q.Sender): Connection
    requires conn.handler.Sending?
  {
    match sender
    case Sent(x) => conn.(handler := Answered(Some(conn.handler.slot)), reply := Some(AckBytes(Ack(x.id, Accepted))))
    case Failed(x, Full) => conn.(handler := Answered(None), reply := Some(AckBytes(Ack(x.id, QueueFull))))
    case _ => conn.(handler := Answered(None), reply := Some(AckBytes(Ack(sender.item.id, ShuttingDown))))
  }

  // `handle_connection`
  function HandlerStep(s: State, a: Action): State
    requires Enabled(s, a)
  {
    match a
    case Decode(c, arrived, ok) =>
      var conn := s.connections[c];
      var q := conn.server.value;
      (match Admit(conn, arrived, ok)
       case Err(id) => s.(connections := s.connections[c := Refused(conn, id)])
       case Ok(request) =>
         var queue := s.processes[q].queue;
         s.(processes := s.processes[q := s.processes[q].(queue := Q.Next(queue, Q.TrySend(request)))],
            connections := s.connections[c := conn.(handler := Sending(|queue.senders|))]))
    case Respond(c) =>
      var conn := s.connections[c];
      var sender := s.processes[conn.server.value].queue.senders[conn.handler.slot];
      s.(connections := s.connections[c := Reported(conn, sender)])
    case _ => s
  }

  function OutsideStep(s: State, a: Action): State
    requires Enabled(s, a)
  {
    match a
    case Stranger(port, frame) => s.(connections := s.connections + [Opened(s, None, port, frame)])
    case OutsideBind(port) => s.(ports := s.ports[port := Outsider])
    case OutsideRelease(port) => s.(ports := s.ports - {port})
    case OutsideAnswer(c, bytes) => s.(connections := s.connections[c := s.connections[c].(reply := Some(bytes))])
    case _ => s
  }

  function Next(s: State, a: Action): State
    requires Enabled(s, a)
  {
    match a
    case Launch(request) =>
      s.(processes := s.processes + [Process(request, None, Trying, Q.Init(QUEUE_CAPACITY))])
    case QueueMove(p, move) =>
      s.(processes := s.processes[p := s.processes[p].(queue := Q.Next(s.processes[p].queue, move))])
    case ReadEndpoint(_) | Connect(_, _) | ReadAck(_, _, _) | Retry(_) | GiveUp(_) => ClientStep(s, a)
    case Decode(_, _, _) | Respond(_) => HandlerStep(s, a)
    case Stranger(_, _) | OutsideBind(_) | OutsideRelease(_) | OutsideAnswer(_, _) => OutsideStep(s, a)
    case _ => OwnerStep(s, a)
  }

  predicate Valid(s: State, run: seq<Action>)
    decreases |run|
  {
    run == [] || (Enabled(s, run[0]) && Valid(Next(s, run[0]), run[1..]))
  }

  function Exec(s: State, run: seq<Action>): State
    requires Valid(s, run)
    decreases |run|
  {
    if run == [] then s else Exec(Next(s, run[0]), run[1..])
  }

  // ----- ownership

  ghost predicate LockInv(s: State) {
    && (forall p: nat | p < |s.processes| :: s.processes[p].stage.HoldsLock() <==> s.lock == Some(p))
    && (s.lock.Some? ==> s.lock.value < |s.processes|)
    && (forall p: nat | p < |s.processes| && s.processes[p].stage.HasPublished() ::
          s.endpoint == Some(s.processes[p].stage.at))
  }

  // Actions of one process alone.
  predicate Owned(a: Action) {
    !a.Launch? && !a.Decode? && !a.Respond? && !a.Stranger? && !a.OutsideBind? && !a.OutsideRelease?
    && !a.OutsideAnswer?
  }

  // The steps of `acquire` that forward instead of owning.
  predicate ClientMove(a: Action) { a.ReadEndpoint? || a.Connect? || a.ReadAck? || a.Retry? || a.GiveUp? }

  predicate OwnerMove(a: Action) { Owned(a) && !ClientMove(a) && !a.QueueMove? }

  // A client's step changes its own stage, which is never an owner's, and may open a connection.
  lemma ClientShape(s: State, a: Action)
    requires Enabled(s, a) && ClientMove(a)
    ensures var t := Next(s, a);
            && |t.processes| == |s.processes|
            && t == s.(processes := s.processes[a.p := s.processes[a.p].(stage := t.processes[a.p].stage)],
                       connections := t.connections)
            && !s.processes[a.p].stage.HoldsLock() && !t.processes[a.p].stage.HoldsLock()
  {
  }

  lemma OwnerShape(s: State, a: Action)
    requires Enabled(s, a) && OwnerMove(a)
    ensures var t := Next(s, a);
            && |t.processes| == |s.processes| && t.connections == s.connections
            && t.processes == s.processes[a.p := s.processes[a.p].(stage := t.processes[a.p].stage,
                                                                   token := t.processes[a.p].token)]
  {
  }

  lemma QueueShape(s: State, a: Action)
    requires Enabled(s, a) && a.QueueMove?
    ensures var t := Next(s, a);
            && |t.processes| == |s.processes|
            && t == s.(processes := s.processes[a.p := s.processes[a.p].(queue := t.processes[a.p].queue)])
            && t.processes[a.p].queue == Q.Next(s.processes[a.p].queue, a.move)
  {
  }

  lemma OthersUntouched(s: State, a: Action)
    requires Enabled(s, a) && Owned(a)
    ensures var t := Next(s, a);
            && |t.processes| == |s.processes| && t.processes == s.processes[a.p := t.processes[a.p]]
            && t.processes[a.p].request == s.processes[a.p].request
  {
    if ClientMove(a) { ClientShape(s, a); } else if a.QueueMove? { QueueShape(s, a); } else { OwnerShape(s, a); }
  }

  // The lock is only taken by a process that finds it free and only given up by its holder.
  ghost predicate LockMoved(s: State, t: State, p: nat)
    requires p < |s.processes| && p < |t.processes|
  {
    && (t.processes[p].stage.HoldsLock() <==> t.lock == Some(p))
    && (t.lock == s.lock || (s.lock.None? && t.lock == Some(p)) || (s.lock == Some(p) && t.lock.None?))
    && (t.endpoint != s.endpoint ==> s.lock == Some(p) == t.lock)
    && (t.processes[p].stage.HasPublished() ==> t.endpoint == Some(t.processes[p].stage.at))
  }

  lemma OwnerMovesLock(s: State, a: Action)
    requires Enabled(s, a) && OwnerMove(a)
    requires s.processes[a.p].stage.HoldsLock() <==> s.lock == Some(a.p)
    requires s.processes[a.p].stage.HasPublished() ==> s.endpoint == Some(s.processes[a.p].stage.at)
    ensures a.p < |Next(s, a).processes| && LockMoved(s, Next(s, a), a.p)
  {
  }

  lemma LockMoves(s: State, a: Action)
    requires LockInv(s) && Enabled(s, a) && Owned(a)
    ensures a.p < |Next(s, a).processes| && LockMoved(s, Next(s, a), a.p)
  {
    assert s.processes[a.p].stage.HoldsLock() <==> s.lock == Some(a.p);
    if ClientMove(a) {
      ClientShape(s, a);
    } else if a.QueueMove? {
      QueueShape(s, a);
    } else {
      OwnerMovesLock(s, a);
    }
  }

  lemma LockFrame(s: State, t: State, p: nat)
    requires LockInv(s) && p < |s.processes|
    requires |t.processes| == |s.processes| && t.processes == s.processes[p := t.processes[p]]
    requires LockMoved(s, t, p)
    ensures LockInv(t)
  {
    forall q: nat | q < |t.processes| && t.processes[q].stage.HasPublished()
      ensures t.endpoint == Some(t.processes[q].stage.at)
    {
      if q != p {
        assert s.processes[q].stage.HoldsLock();
        assert t.endpoint == s.endpoint;
      }
    }
  }

  // Handlers and other programs leave the stages, the lock and the endpoint file alone.
  lemma StagesUntouched(s: State, a: Action)
    requires Enabled(s, a) && !Owned(a) && !a.Launch?
    ensures var t := Next(s, a);
            && t.lock == s.lock && t.endpoint == s.endpoint && t.tokens == s.tokens && |t.processes| == |s.processes|
            && forall p: nat | p < |s.processes| :: t.processes[p] == s.processes[p].(queue := t.processes[p].queue)
  {
  }

  lemma LockStep(s: State, a: Action)
    requires LockInv(s) && Enabled(s, a)
    ensures LockInv(Next(s, a))
  {
    if Owned(a) {
      OthersUntouched(s, a);
      LockMoves(s, a);
      LockFrame(s, Next(s, a), a.p);
    } else if !a.Launch? {
      StagesUntouched(s, a);
    }
  }

  lemma {:induction false} LockRun(s: State, run: seq<Action>)
    requires LockInv(s) && Valid(s, run)
    ensures LockInv(Exec(s, run))
    decreases |run|
  {
    if run != [] {
      LockStep(s, run[0]);
      LockRun(Next(s, run[0]), run[1..]);
    }
  }

  // A process that has bound keeps the token it drew and, while it may serve, its port.
  predicate Anchored(process: Process, ports: map<nat, Listener>, p: nat) {
    && (process.stage.HasBound() ==> process.token == Some(process.stage.at.token))
    && (process.stage.Listens() ==>
          process.stage.at.port in ports && ports[process.stage.at.port] == Ours(p))
  }

  ghost predicate AnchorInv(s: State) {
    forall p: nat | p < |s.processes| :: Anchored(s.processes[p], s.ports, p)
  }

  // A step of `q` frees no port but its own; other programs take only free ones.
  lemma PortsKeep(s: State, a: Action, port: nat, p: nat)
    requires Enabled(s, a) && port in s.ports && s.ports[port] == Ours(p)
    ensures (Owned(a) && a.p == p) || (port in Next(s, a).ports && Next(s, a).ports[port] == Ours(p))
  {
  }

  lemma OwnerAnchors(s: State, a: Action)
    requires Enabled(s, a) && OwnerMove(a) && Anchored(s.processes[a.p], s.ports, a.p)
    ensures a.p < |Next(s, a).processes| && Anchored(Next(s, a).processes[a.p], Next(s, a).ports, a.p)
  {
  }

  lemma AnchorActs(s: State, a: Action)
    requires Enabled(s, a) && Owned(a) && Anchored(s.processes[a.p], s.ports, a.p)
    ensures a.p < |Next(s, a).processes| && Anchored(Next(s, a).processes[a.p], Next(s, a).ports, a.p)
  {
    if ClientMove(a) {
      ClientShape(s, a);
    } else if a.QueueMove? {
      QueueShape(s, a);
    } else {
      OwnerAnchors(s, a);
    }
  }

  lemma AnchorStep(s: State, a: Action)
    requires AnchorInv(s) && Enabled(s, a)
    ensures AnchorInv(Next(s, a))
  {
    var t := Next(s, a);
    if Owned(a) { OthersUntouched(s, a); } else if !a.Launch? { StagesUntouched(s, a); }
    forall p: nat | p < |t.processes| ensures Anchored(t.processes[p], t.ports, p) {
      if p < |s.processes| {
        assert Anchored(s.processes[p], s.ports, p);
        if Owned(a) && a.p == p {
          AnchorActs(s, a);
        } else if s.processes[p].stage.Listens() {
          PortsKeep(s, a, s.processes[p].stage.at.port, p);
        }
      }
    }
  }

  lemma {:induction false} AnchorRun(s: State, run: seq<Action>)
    requires AnchorInv(s) && Valid(s, run)
    ensures AnchorInv(Exec(s, run))
    decreases |run|
  {
    if run != [] {
      AnchorStep(s, run[0]);
      AnchorRun(Next(s, run[0]), run[1..]);
    }
  }

  // At most one process is owner or on its way in or out of ownership. While it is published the
  // endpoint file is its own and carries the token its handlers compare with, and until it stops
  // it is the one that accepts connections on the port the file names.
  lemma OneOwner(run: seq<Action>, p: nat, q: nat)
    requires Valid(Init(), run)
    requires var s := Exec(Init(), run);
             && p < |s.processes| && s.processes[p].stage.HoldsLock()
             && q < |s.processes| && s.processes[q].stage.HoldsLock()
    ensures p == q && Exec(Init(), run).lock == Some(p)
    ensures var s := Exec(Init(), run);
            s.processes[p].stage.HasPublished() ==>
              && s.endpoint == Some(s.processes[p].stage.at)
              && s.processes[p].token == Some(s.endpoint.value.token)
              && (!s.processes[p].stage.Stopped? ==> Accepting(s, s.endpoint.value.port, p))
  {
    LockRun(Init(), run);
    AnchorRun(Init(), run);
    assert Anchored(Exec(Init(), run).processes[p], Exec(Init(), run).ports, p);
  }

  // A port of ours belongs to a process that listens on it.
  predicate Tended(processes: seq<Process>, port: nat, p: nat) {
    p < |processes| && processes[p].stage.Listens() && processes[p].stage.at.port == port
  }

  ghost predicate PortInv(s: State) {
    forall port | port in s.ports && s.ports[port].Ours? :: Tended(s.processes, port, s.ports[port].p)
  }

  lemma OwnerTends(s: State, a: Action, port: nat)
    requires Enabled(s, a) && OwnerMove(a) && port in Next(s, a).ports && Next(s, a).ports[port].Ours?
    requires port in s.ports && s.ports[port].Ours? ==> Tended(s.processes, port, s.ports[port].p)
    ensures Tended(Next(s, a).processes, port, Next(s, a).ports[port].p)
  {
  }

  lemma PortStep(s: State, a: Action)
    requires PortInv(s) && Enabled(s, a)
    ensures PortInv(Next(s, a))
  {
    var t := Next(s, a);
    if ClientMove(a) { ClientShape(s, a); } else if !Owned(a) && !a.Launch? { StagesUntouched(s, a); }
    forall port | port in t.ports && t.ports[port].Ours? ensures Tended(t.processes, port, t.ports[port].p) {
      if OwnerMove(a) { OwnerTends(s, a, port); }
    }
  }

  lemma {:induction false} PortRun(s: State, run: seq<Action>)
    requires PortInv(s) && Valid(s, run)
    ensures PortInv(Exec(s, run))
    decreases |run|
  {
    if run != [] {
      PortStep(s, run[0]);
      PortRun(Next(s, run[0]), run[1..]);
    }
  }

  // Whichever way a process ended, nothing is left in its hands: neither the lock nor a port.
  lemma EndedHoldsNothing(run: seq<Action>, p: nat, port: nat)
    requires Valid(Init(), run) && p < |Exec(Init(), run).processes|
    requires Ended(Exec(Init(), run).processes[p].stage) && port in Exec(Init(), run).ports
    ensures Exec(Init(), run).lock != Some(p) && Exec(Init(), run).ports[port] != Ours(p)
  {
    LockRun(Init(), run);
    PortRun(Init(), run);
    var s := Exec(Init(), run);
    assert s.processes[p].stage.HoldsLock() <==> s.lock == Some(p);
    if s.ports[port].Ours? { assert Tended(s.processes, port, s.ports[port].p); }
  }

  // ----- how a process ends

  predicate Ended(stage: Stage) { stage.Forwarded? || stage.Failed? || stage.Retired? || stage.Crashed? }

  lemma EndedStep(s: State, a: Action, p: nat)
    requires Enabled(s, a) && p < |s.processes| && Ended(s.processes[p].stage)
    ensures p < |Next(s, a).processes|
    ensures Next(s, a).processes[p].stage in {s.processes[p].stage, Crashed}
  {
    if Owned(a) { OthersUntouched(s, a); } else if !a.Launch? { StagesUntouched(s, a); }
  }

  lemma {:induction false} EndedRun(s: State, run: seq<Action>, p: nat)
    requires Valid(s, run) && p < |s.processes| && Ended(s.processes[p].stage)
    ensures p < |Exec(s, run).processes|
    ensures Exec(s, run).processes[p].stage in {s.processes[p].stage, Crashed}
    decreases |run|
  {
    if run != [] {
      EndedStep(s, run[0], p);
      EndedRun(Next(s, run[0]), run[1..], p);
    }
  }

  // Out of time, or out of luck while becoming the owner, `acquire` returns an error: from then on
  // the process neither owns nor forwards.
  lemma ErrorIsFinal(s: State, a: Action, run: seq<Action>)
    requires Enabled(s, a) && (a.GiveUp? || a.Abort?) && Valid(Next(s, a), run)
    ensures a.p < |Exec(Next(s, a), run).processes|
    ensures Exec(Next(s, a), run).processes[a.p].stage in {Failed, Crashed}
  {
    assert Next(s, a).processes[a.p].stage == Failed;
    EndedRun(Next(s, a), run, a.p);
  }

  // Whoever changes the endpoint file holds the lock while doing so.
  lemma OnlyHolderWritesEndpoint(run: seq<Action>, a: Action)
    requires Valid(Init(), run) && Enabled(Exec(Init(), run), a)
    requires Next(Exec(Init(), run), a).endpoint != Exec(Init(), run).endpoint
    ensures a.ClearEndpoint? || a.Publish? || a.RemoveEndpoint?
    ensures Exec(Init(), run).lock == Some(a.p) && Next(Exec(Init(), run), a).lock == Some(a.p)
  {
    LockRun(Init(), run);
    if Owned(a) { LockMoves(Exec(Init(), run), a); }
  }

  // ----- tokens

  ghost predicate TokenInv(s: State) {
    && (forall p: nat | p < |s.processes| && s.processes[p].token.Some? :: s.processes[p].token.value in s.tokens)
    && (forall p: nat, q: nat | p < q < |s.processes| && s.processes[p].token.Some? ::
          s.processes[p].token != s.processes[q].token)
    && (forall p: nat | p < |s.processes| && Tokenless(s.processes[p].stage) :: s.processes[p].token.None?)
  }

  // How an action touches tokens.
  lemma TokenMoves(s: State, a: Action)
    requires TokenInv(s) && Enabled(s, a) && Owned(a)
    ensures var t := Next(s, a);
            && s.tokens <= t.tokens
            && (if a.Bind? then t.processes[a.p].token == Some(a.at.token) && a.at.token in t.tokens
                                && a.at.token !in s.tokens && s.processes[a.p].token.None?
                else t.processes[a.p].token == s.processes[a.p].token)
  {
  }

  predicate Tokenless(stage: Stage) {
    stage.Trying? || stage.Locked? || stage.Cleared? || stage.Reading? || stage.Connecting?
    || stage.Waiting? || stage.Sleeping?
  }

  lemma StagesStayTokenless(s: State, a: Action)
    requires Enabled(s, a) && Owned(a) && Tokenless(Next(s, a).processes[a.p].stage)
    ensures Tokenless(s.processes[a.p].stage) && !a.Bind?
  {
  }

  lemma TokenStep(s: State, a: Action)
    requires TokenInv(s) && Enabled(s, a)
    ensures TokenInv(Next(s, a))
  {
    if Owned(a) {
      OthersUntouched(s, a);
      TokenMoves(s, a);
      if Tokenless(Next(s, a).processes[a.p].stage) { StagesStayTokenless(s, a); }
      TokenFrame(s, Next(s, a), a.p);
    } else if !a.Launch? {
      StagesUntouched(s, a);
    }
  }

  lemma TokenFrame(s: State, t: State, p: nat)
    requires TokenInv(s) && p < |s.processes|
    requires |t.processes| == |s.processes| && t.processes == s.processes[p := t.processes[p]] && s.tokens <= t.tokens
    requires t.processes[p].token == s.processes[p].token
          || (t.processes[p].token.Some? && t.processes[p].token.value in t.tokens
              && t.processes[p].token.value !in s.tokens)
    requires Tokenless(t.processes[p].stage) ==> t.processes[p].token.None?
    ensures TokenInv(t)
  {
  }

  // ----- what never changes

  // A process keeps its request, a token once drawn, and every call into its queue.
  ghost predicate Keeps(was: Process, now: Process) {
    && now.request == was.request && (was.token.Some? ==> now.token == was.token)
    && Q.Grows(was.queue.senders, now.queue.senders)
  }

  lemma ProcessesKeep(s: State, a: Action, p: nat)
    requires TokenInv(s) && Enabled(s, a) && p < |s.processes|
    ensures p < |Next(s, a).processes| && Keeps(s.processes[p], Next(s, a).processes[p])
  {
    if a.QueueMove? {
      QueueShape(s, a);
      Q.SendersGrow(s.processes[a.p].queue, a.move);
    } else if a.Decode? {
      QueueOnDecode(s, a);
    } else if ClientMove(a) {
      ClientShape(s, a);
    } else if Owned(a) {
      OwnerShape(s, a);
      TokenMoves(s, a);
    } else {
      ProcessesStay(s, a);
    }
  }

  lemma ProcessesStay(s: State, a: Action)
    requires Enabled(s, a) && !Owned(a) && !a.Decode?
    ensures |s.processes| <= |Next(s, a).processes| && Next(s, a).processes[..|s.processes|] == s.processes
  {
  }

  lemma QueueOnDecode(s: State, a: Action)
    requires Enabled(s, a) && a.Decode?
    ensures forall p: nat | p < |s.processes| ::
              p < |Next(s, a).processes| && Keeps(s.processes[p], Next(s, a).processes[p])
  {
    var conn := s.connections[a.conn];
    match Admit(conn, a.arrived, a.ok)
    case Err(_) =>
    case Ok(request) => Q.SendersGrow(s.processes[conn.server.value].queue, Q.TrySend(request));
  }

  // A connection keeps its ends and its frame, and a reply once written.
  predicate Same(was: Connection, now: Connection) {
    && now.client == was.client && now.server == was.server && now.auth == was.auth && now.frame == was.frame
    && (was.reply.Some? ==> now.reply == was.reply)
  }

  // What a step does to the connections: nothing, one more, or one handled.
  lemma ConnectionsMove(s: State, a: Action)
    requires Enabled(s, a)
    ensures var t := Next(s, a);
            || t.connections == s.connections
            || (|t.connections| == |s.connections| + 1 && t.connections[..|s.connections|] == s.connections
                && (a.Connect? || a.Stranger?))
            || ((a.Decode? || a.Respond? || a.OutsideAnswer?)
                && t.connections == s.connections[a.conn := t.connections[a.conn]])
  {
  }

  // ----- connections

  // `r` was decoded, with the server's token, from what arrived of the frame.
  ghost predicate Decoded(conn: Connection, r: Request) {
    exists n: nat :: n <= |conn.frame| && DecodeRequest(conn.frame[..n]) == Ok((conn.auth, r))
  }

  ghost predicate Negative(reply: Option<seq<Byte>>) {
    exists ack: Ack :: !ack.status.Accepted? && reply == Some(AckBytes(ack))
  }

  // A handler of ours acknowledges only what its `try_send` put into the owner's queue.
  ghost predicate HandlerOk(server: Process, conn: Connection) {
    && server.token == Some(conn.auth)
    && match conn.handler
       case Fresh => conn.reply.None?
       case Sending(k) =>
         conn.reply.None? && k < |server.queue.senders| && Decoded(conn, server.queue.senders[k].item)
       case Answered(None) => Negative(conn.reply)
       case Answered(Some(k)) =>
         && k < |server.queue.senders| && server.queue.senders[k].Sent?
         && Decoded(conn, server.queue.senders[k].item)
         && conn.reply == Some(AckBytes(Ack(server.queue.senders[k].item.id, Accepted)))
  }

  ghost predicate ConnectionOk(processes: seq<Process>, conn: Connection) {
    match conn.server
    case None => conn.handler.Fresh?
    case Some(q) => q < |processes| && HandlerOk(processes[q], conn)
  }

  ghost predicate ConnectionInv(s: State) {
    forall c: nat | c < |s.connections| :: ConnectionOk(s.processes, s.connections[c])
  }

  lemma ConnectionFrame(before: seq<Process>, after: seq<Process>, conn: Connection)
    requires ConnectionOk(before, conn)
    requires forall p: nat | p < |before| :: p < |after| && Keeps(before[p], after[p])
    ensures ConnectionOk(after, conn)
  {
  }

  lemma OpenedIsOk(s: State, client: Option<nat>, port: nat, frame: seq<Byte>)
    requires port in s.ports
    ensures ConnectionOk(s.processes, Opened(s, client, port, frame))
  {
  }

  lemma DecodeIsOk(s: State, a: Action)
    requires Enabled(s, a) && a.Decode? && ConnectionOk(s.processes, s.connections[a.conn])
    ensures ConnectionOk(Next(s, a).processes, Next(s, a).connections[a.conn])
  {
    var conn := s.connections[a.conn];
    match Admit(conn, a.arrived, a.ok)
    case Err(id) =>
      assert !Ack(id, InvalidRequest).status.Accepted?;
    case Ok(request) =>
      var now := Next(s, a).connections[a.conn];
      assert DecodeRequest(now.frame[..Min(a.arrived, |now.frame|)]) == Ok((now.auth, request));
  }

  lemma RespondIsOk(s: State, a: Action)
    requires Enabled(s, a) && a.Respond? && ConnectionOk(s.processes, s.connections[a.conn])
    ensures ConnectionOk(Next(s, a).processes, Next(s, a).connections[a.conn])
  {
    var conn := s.connections[a.conn];
    var sender := s.processes[conn.server.value].queue.senders[conn.handler.slot];
    var now := Next(s, a).connections[a.conn];
    var n: nat :| n <= |conn.frame| && DecodeRequest(conn.frame[..n]) == Ok((conn.auth, sender.item));
    assert DecodeRequest(now.frame[..n]) == Ok((now.auth, sender.item));
    if sender.Failed? {
      var status := if sender.why == Q.Full then QueueFull else ShuttingDown;
      assert !Ack(sender.item.id, status).status.Accepted?;
    }
  }

  // The one connection a step adds or handles.
  lemma ChangedIsOk(s: State, a: Action, c: nat)
    requires ConnectionInv(s) && Enabled(s, a) && c < |Next(s, a).connections|
    requires c < |s.connections| ==> Next(s, a).connections[c] != s.connections[c]
    ensures ConnectionOk(Next(s, a).processes, Next(s, a).connections[c])
            || ConnectionOk(s.processes, Next(s, a).connections[c])
  {
    ConnectionsMove(s, a);
    if c < |s.connections| {
      assert c == a.conn && ConnectionOk(s.processes, s.connections[c]);
      if a.Decode? { DecodeIsOk(s, a); } else if a.Respond? { RespondIsOk(s, a); }
    } else if a.Connect? {
      var to := s.processes[a.p].stage.to;
      OpenedIsOk(s, Some(a.p), to.port, EncodeRequest(to.token, s.processes[a.p].request).value);
    } else {
      OpenedIsOk(s, None, a.port, a.frame);
    }
  }

  lemma ConnectionStep(s: State, a: Action)
    requires TokenInv(s) && ConnectionInv(s) && Enabled(s, a)
    ensures ConnectionInv(Next(s, a))
  {
    var t := Next(s, a);
    forall p: nat | p < |s.processes| ensures p < |t.processes| && Keeps(s.processes[p], t.processes[p]) {
      ProcessesKeep(s, a, p);
    }
    forall c: nat | c < |t.connections| ensures ConnectionOk(t.processes, t.connections[c]) {
      if c < |s.connections| && t.connections[c] == s.connections[c] {
        ConnectionFrame(s.processes, t.processes, t.connections[c]);
      } else {
        ChangedIsOk(s, a, c);
        if ConnectionOk(s.processes, t.connections[c]) { ConnectionFrame(s.processes, t.processes, t.connections[c]); }
      }
    }
  }

  // ----- clients

  // A client waits on its own connection, for the frame it sent under the token it read.
  ghost predicate Sent(s: State, p: nat, to: Endpoint, c: nat) {
    && p < |s.processes| && c < |s.connections| && s.connections[c].client == Some(p)
    && EncodeRequest(to.token, s.processes[p].request) == Ok(s.connections[c].frame)
  }

  ghost predicate Confirmed(s: State, p: nat, c: nat) {
    && p < |s.processes| && c < |s.connections| && s.connections[c].reply.Some?
    && exists arrived: nat :: Confirms(s.connections[c].reply.value, arrived, s.processes[p].request)
  }

  ghost predicate ClientOk(s: State, p: nat)
    requires p < |s.processes|
  {
    match s.processes[p].stage
    case Waiting(to, c) => Sent(s, p, to, c)
    case Forwarded(to, c) => Sent(s, p, to, c) && Confirmed(s, p, c)
    case _ => true
  }

  ghost predicate ClientInv(s: State) {
    forall p: nat | p < |s.processes| :: ClientOk(s, p)
  }

  lemma ConnectionsPersist(s: State, a: Action, c: nat)
    requires Enabled(s, a) && c < |s.connections|
    requires s.connections[c].server.Some? ==> ConnectionOk(s.processes, s.connections[c])
    ensures c < |Next(s, a).connections| && Same(s.connections[c], Next(s, a).connections[c])
  {
    ConnectionsMove(s, a);
  }

  lemma ClientFrame(s: State, t: State, p: nat)
    requires p < |s.processes| && p < |t.processes| && ClientOk(s, p)
    requires t.processes[p].stage == s.processes[p].stage && t.processes[p].request == s.processes[p].request
    requires forall c: nat | c < |s.connections| :: c < |t.connections| && Same(s.connections[c], t.connections[c])
    ensures ClientOk(t, p)
  {
    if s.processes[p].stage.Forwarded? {
      var c := s.processes[p].stage.conn;
      var arrived: nat :| Confirms(s.connections[c].reply.value, arrived, s.processes[p].request);
      assert Confirms(t.connections[c].reply.value, arrived, t.processes[p].request);
    }
  }

  lemma ClientActs(s: State, a: Action)
    requires Enabled(s, a) && Owned(a) && ClientOk(s, a.p) && !a.QueueMove?
    ensures ClientOk(Next(s, a), a.p)
  {
    if a.ReadAck? {
      var Waiting(to, c) := s.processes[a.p].stage;
      var t := Next(s, a);
      if t.processes[a.p].stage.Forwarded? {
        assert Confirms(t.connections[c].reply.value, a.arrived, t.processes[a.p].request);
      }
    }
  }

  lemma AllConnectionsPersist(s: State, a: Action, t: State)
    requires ConnectionInv(s) && Enabled(s, a) && t == Next(s, a)
    ensures forall c: nat | c < |s.connections| :: c < |t.connections| && Same(s.connections[c], t.connections[c])
  {
    forall c: nat | c < |s.connections| ensures c < |t.connections| && Same(s.connections[c], t.connections[c]) {
      assert ConnectionOk(s.processes, s.connections[c]);
      ConnectionsPersist(s, a, c);
    }
  }

  lemma ClientStepKeeps(s: State, a: Action)
    requires ConnectionInv(s) && ClientInv(s) && Enabled(s, a)
    ensures ClientInv(Next(s, a))
  {
    var t := Next(s, a);
    AllConnectionsPersist(s, a, t);
    if Owned(a) { OthersUntouched(s, a); } else if !a.Launch? { StagesUntouched(s, a); }
    forall p: nat | p < |t.processes| ensures ClientOk(t, p) {
      if p < |s.processes| {
        assert ClientOk(s, p);
        if Owned(a) && p == a.p && !a.QueueMove? { ClientActs(s, a); } else { ClientFrame(s, t, p); }
      }
    }
  }

  // ----- queues

  ghost predicate QueueInv(s: State) {
    forall p: nat | p < |s.processes| ::
      QueueOk(s.processes[p].queue)
  }

  ghost predicate QueueOk(queue: Q.State) {
    Q.Inv(queue) && Q.UndoInv(queue) && Q.SentInv(queue) && Q.OnceInv(queue)
  }

  // A step touches at most one queue, by one operation of the queue.
  lemma QueuesMove(s: State, a: Action, p: nat)
    requires Enabled(s, a) && p < |s.processes|
    ensures p < |Next(s, a).processes|
    ensures var was, now := s.processes[p].queue, Next(s, a).processes[p].queue;
            now == was || exists move :: Q.Enabled(was, move) && now == Q.Next(was, move)
  {
    if a.QueueMove? {
      QueueShape(s, a);
      assert Q.Enabled(s.processes[a.p].queue, a.move);
    } else if a.Decode? {
      DecodeMovesQueue(s, a, p);
    } else if ClientMove(a) {
      ClientShape(s, a);
    } else if Owned(a) {
      OwnerShape(s, a);
    } else {
      ProcessesStay(s, a);
    }
  }

  lemma DecodeMovesQueue(s: State, a: Action, p: nat)
    requires Enabled(s, a) && a.Decode? && p < |s.processes|
    ensures p < |Next(s, a).processes|
    ensures var was, now := s.processes[p].queue, Next(s, a).processes[p].queue;
            now == was || exists move :: Q.Enabled(was, move) && now == Q.Next(was, move)
  {
    match Admit(s.connections[a.conn], a.arrived, a.ok)
    case Err(_) =>
    case Ok(request) => assert Q.Enabled(s.processes[p].queue, Q.TrySend(request));
  }

  lemma QueueStep(s: State, a: Action)
    requires QueueInv(s) && Enabled(s, a)
    ensures QueueInv(Next(s, a))
  {
    var t := Next(s, a);
    forall p: nat | p < |t.processes| ensures QueueOk(t.processes[p].queue) {
      if p < |s.processes| {
        assert QueueOk(s.processes[p].queue);
        QueuesMove(s, a, p);
        QueueOkStep(s.processes[p].queue, t.processes[p].queue);
      } else {
        Q.InitInv(QUEUE_CAPACITY);
      }
    }
  }

  lemma QueueOkStep(was: Q.State, now: Q.State)
    requires QueueOk(was) && (now == was || exists move :: Q.Enabled(was, move) && now == Q.Next(was, move))
    ensures QueueOk(now)
  {
    if now != was {
      var move :| Q.Enabled(was, move) && now == Q.Next(was, move);
      Q.StepKeeps(was, move);
      Q.StepKeepsCalls(was, move);
      Q.StepKeepsOnce(was, move);
    }
  }

  lemma StepForwards(s: State, a: Action)
    requires ForwardInv(s) && Enabled(s, a)
    ensures ForwardInv(Next(s, a))
  {
    TokenStep(s, a);
    ConnectionStep(s, a);
    ClientStepKeeps(s, a);
    QueueStep(s, a);
  }

  ghost predicate ForwardInv(s: State) { TokenInv(s) && ConnectionInv(s) && ClientInv(s) && QueueInv(s) }

  lemma {:induction false} ForwardRun(s: State, run: seq<Action>)
    requires ForwardInv(s) && Valid(s, run)
    ensures ForwardInv(Exec(s, run))
    decreases |run|
  {
    if run != [] {
      StepForwards(s, run[0]);
      ForwardRun(Next(s, run[0]), run[1..]);
    }
  }

  // The request went through this connection into the queue of the process that accepted it.
  ghost predicate EnqueuedOver(s: State, c: nat, request: Request) {
    && c < |s.connections|
    && var conn := s.connections[c];
       && conn.server.Some? && conn.server.value < |s.processes|
       && var queue := s.processes[conn.server.value].queue;
          && conn.handler.Answered? && conn.handler.entered.Some? && conn.handler.entered.value < |queue.senders|
          && queue.senders[conn.handler.entered.value] == Q.Sent(request) && request in queue.sent
  }

  lemma AckIsWhole(ack: Ack, arrived: nat, request: Request)
    requires Confirms(AckBytes(ack), arrived, request)
    ensures ack == Ack(request.id, Accepted)
  {
    var bytes := AckBytes(ack);
    AckRoundTrip(ack);
    if arrived < |bytes| {
      FrameLengthIsChecked(ACK_KIND, ack.id + [StatusByte(ack.status)], arrived, [0]);
    } else {
      assert bytes[..|bytes|] == bytes;
    }
  }

  lemma DecodedIsSent(conn: Connection, r: Request, token: Id16, request: Request)
    requires Decoded(conn, r) && EncodeRequest(token, request) == Ok(conn.frame)
    ensures r == request && conn.auth == token
  {
    var n: nat :| n <= |conn.frame| && DecodeRequest(conn.frame[..n]) == Ok((conn.auth, r));
    RequestRoundTrip(token, request);
    if n < |conn.frame| {
      RequestLengthIsChecked(token, request, n, [0]);
    } else {
      assert conn.frame[..n] == conn.frame;
    }
  }

  // A confirmation on a connection that a process of ours accepted is genuine: its handler
  // put this very request into the owner's queue, under the token that was presented.
  lemma ConfirmationIsGenuine(server: Process, conn: Connection, arrived: nat, token: Id16, request: Request)
    requires HandlerOk(server, conn) && conn.reply.Some? && Confirms(conn.reply.value, arrived, request)
    requires EncodeRequest(token, request) == Ok(conn.frame)
    ensures conn.auth == token && conn.handler.Answered? && conn.handler.entered.Some?
    ensures conn.handler.entered.value < |server.queue.senders|
    ensures server.queue.senders[conn.handler.entered.value] == Q.Sent(request)
  {
    match conn.handler
    case Answered(None) =>
      var ack: Ack :| !ack.status.Accepted? && conn.reply == Some(AckBytes(ack));
      AckIsWhole(ack, arrived, request);
    case Answered(Some(k)) =>
      DecodedIsSent(conn, server.queue.senders[k].item, token, request);
    case _ =>
  }

  lemma ServedIsEnqueued(s: State, p: nat)
    requires ForwardInv(s) && p < |s.processes| && s.processes[p].stage.Forwarded?
    requires Sent(s, p, s.processes[p].stage.to, s.processes[p].stage.conn)
    requires Confirmed(s, p, s.processes[p].stage.conn)
    requires s.connections[s.processes[p].stage.conn].server.Some?
    ensures EnqueuedOver(s, s.processes[p].stage.conn, s.processes[p].request)
    ensures var q := s.connections[s.processes[p].stage.conn].server.value;
            q < |s.processes| && s.processes[q].token == Some(s.processes[p].stage.to.token)
  {
    var Forwarded(to, c) := s.processes[p].stage;
    var conn := s.connections[c];
    assert ConnectionOk(s.processes, conn);
    var arrived: nat :| Confirms(conn.reply.value, arrived, s.processes[p].request);
    var server := s.processes[conn.server.value];
    ConfirmationIsGenuine(server, conn, arrived, to.token, s.processes[p].request);
    assert QueueOk(server.queue);
  }

  // `Forwarded` means that exactly this request entered the owner's queue, over the caller's own
  // connection, if and only if a process of ours accepted that connection; it is then the one
  // process that ever drew the token the caller presented.
  lemma ForwardedMeansEnqueued(run: seq<Action>, p: nat)
    requires Valid(Init(), run) && p < |Exec(Init(), run).processes|
    requires Exec(Init(), run).processes[p].stage.Forwarded?
    ensures var s := Exec(Init(), run);
            var Forwarded(to, c) := s.processes[p].stage;
            && c < |s.connections| && s.connections[c].client == Some(p)
            && (EnqueuedOver(s, c, s.processes[p].request) <==> s.connections[c].server.Some?)
            && (s.connections[c].server.Some? ==>
                  forall q: nat | q < |s.processes| ::
                    s.processes[q].token == Some(to.token) <==> q == s.connections[c].server.value)
  {
    ForwardRun(Init(), run);
    var s := Exec(Init(), run);
    assert ClientOk(s, p);
    if s.connections[s.processes[p].stage.conn].server.Some? { ServedIsEnqueued(s, p); }
  }

  // What became of a forwarded request: received, in hand, waiting, or lost with the receiver.
  lemma EnqueuedIsAccountedFor(run: seq<Action>, c: nat, request: Request)
    requires Valid(Init(), run) && EnqueuedOver(Exec(Init(), run), c, request)
    ensures var s := Exec(Init(), run);
            var queue := s.processes[s.connections[c].server.value].queue;
            request in queue.received || request in Q.InHand(queue.receiver) || request in queue.channel
            || request in queue.lost
  {
    ForwardRun(Init(), run);
    var s := Exec(Init(), run);
    assert QueueOk(s.processes[s.connections[c].server.value].queue);
  }

  // Nothing is ever enqueued for a frame that does not carry the server's token.
  lemma EnqueuedMeansAuthorised(run: seq<Action>, c: nat, request: Request)
    requires Valid(Init(), run) && EnqueuedOver(Exec(Init(), run), c, request)
    ensures var s := Exec(Init(), run);
            && s.processes[s.connections[c].server.value].token == Some(s.connections[c].auth)
            && Decoded(s.connections[c], request)
  {
    ForwardRun(Init(), run);
    var s := Exec(Init(), run);
    assert ConnectionOk(s.processes, s.connections[c]);
  }

  // ----- when a confirmation is genuine

  lemma {:induction false} ConnectionsRun(s: State, run: seq<Action>, c: nat)
    requires ForwardInv(s) && Valid(s, run) && c < |s.connections|
    ensures c < |Exec(s, run).connections| && Same(s.connections[c], Exec(s, run).connections[c])
    decreases |run|
  {
    if run != [] {
      assert ConnectionOk(s.processes, s.connections[c]);
      ConnectionsPersist(s, run[0], c);
      StepForwards(s, run[0]);
      ConnectionsRun(Next(s, run[0]), run[1..], c);
    }
  }

  lemma {:induction false} ValidConcat(s: State, a: seq<Action>, b: seq<Action>)
    requires Valid(s, a) && Valid(Exec(s, a), b)
    ensures Valid(s, a + b) && Exec(s, a + b) == Exec(Exec(s, a), b)
    decreases |a|
  {
    if a == [] {
      assert a + b == b;
    } else {
      assert (a + b)[1..] == a[1..] + b;
      ValidConcat(Next(s, a[0]), a[1..], b);
    }
  }

  lemma ConnectOpens(s: State, p: nat)
    requires Enabled(s, Connect(p, true)) && Next(s, Connect(p, true)).processes[p].stage.Waiting?
    ensures var t, c := Next(s, Connect(p, true)), |s.connections|;
            && c < |t.connections|
            && (t.connections[c].server.Some? <==> exists q :: Accepting(s, s.processes[p].stage.to.port, q))
  {
    var to := s.processes[p].stage.to;
    assert to.port in s.ports;
    if s.ports[to.port].Ours? && Accepting(s, to.port, s.ports[to.port].p) {
      assert exists q :: Accepting(s, to.port, q);
    }
  }

  // The run `before`, then a successful connect of `p`, then `after`.
  ghost predicate Connects(before: seq<Action>, p: nat, after: seq<Action>) {
    && Valid(Init(), before) && Enabled(Exec(Init(), before), Connect(p, true))
    && Next(Exec(Init(), before), Connect(p, true)).processes[p].stage.Waiting?
    && Valid(Next(Exec(Init(), before), Connect(p, true)), after)
  }

  function Ends(before: seq<Action>, p: nat, after: seq<Action>): State
    requires Connects(before, p, after)
  {
    Exec(Next(Exec(Init(), before), Connect(p, true)), after)
  }

  lemma WholeRun(before: seq<Action>, p: nat, after: seq<Action>) returns (run: seq<Action>)
    requires Connects(before, p, after)
    ensures Valid(Init(), run) && Exec(Init(), run) == Ends(before, p, after)
  {
    var rest := [Connect(p, true)] + after;
    assert rest[1..] == after;
    ValidConcat(Init(), before, rest);
    run := before + rest;
  }

  lemma ServerIsListener(before: seq<Action>, p: nat, after: seq<Action>)
    requires Connects(before, p, after)
    ensures var s := Exec(Init(), before);
            var c := |s.connections|;
            && c < |Ends(before, p, after).connections|
            && (Ends(before, p, after).connections[c].server.Some?
                <==> exists q :: Accepting(s, s.processes[p].stage.to.port, q))
  {
    var s := Exec(Init(), before);
    ForwardRun(Init(), before);
    StepForwards(s, Connect(p, true));
    ConnectOpens(s, p);
    ConnectionsRun(Next(s, Connect(p, true)), after, |s.connections|);
  }

  // Exactly when `Forwarded` tells the truth: when the client connects, a process of ours listens
  // on the port it read from the endpoint file.
  lemma ForwardedIsGenuineIff(before: seq<Action>, p: nat, after: seq<Action>)
    requires Connects(before, p, after) && p < |Ends(before, p, after).processes|
    requires Ends(before, p, after).processes[p].stage.Forwarded?
    requires Ends(before, p, after).processes[p].stage.conn == |Exec(Init(), before).connections|
    ensures var s, u := Exec(Init(), before), Ends(before, p, after);
            EnqueuedOver(u, |s.connections|, u.processes[p].request)
            <==> exists q :: Accepting(s, s.processes[p].stage.to.port, q)
  {
    var run := WholeRun(before, p, after);
    ForwardedMeansEnqueued(run, p);
    ServerIsListener(before, p, after);
  }

  // ----- at most once per attempt

  // The call into the server's queue that a connection's handler made.
  function SlotOf(conn: Connection): Option<nat> {
    match conn.handler
    case Fresh => None
    case Sending(k) => Some(k)
    case Answered(entered) => entered
  }

  ghost predicate SlotInv(s: State) {
    forall c: nat, d: nat | c < d < |s.connections| :: Apart(s.connections[c], s.connections[d])
  }

  predicate Apart(a: Connection, b: Connection) {
    a.server == b.server && SlotOf(a).Some? ==> SlotOf(a) != SlotOf(b)
  }

  // A slot is below the number of calls, and a new call takes the next one.
  lemma SlotBound(s: State, c: nat)
    requires ConnectionInv(s) && c < |s.connections| && SlotOf(s.connections[c]).Some?
    ensures s.connections[c].server.Some? && s.connections[c].server.value < |s.processes|
    ensures SlotOf(s.connections[c]).value < |s.processes[s.connections[c].server.value].queue.senders|
  {
    assert ConnectionOk(s.processes, s.connections[c]);
  }

  lemma SlotMoves(s: State, a: Action, c: nat)
    requires Enabled(s, a) && c < |Next(s, a).connections|
    ensures var conn := Next(s, a).connections[c];
            || SlotOf(conn).None?
            || (c < |s.connections| && conn.server == s.connections[c].server
                && SlotOf(conn) == SlotOf(s.connections[c]))
            || (a.Decode? && c == a.conn && c < |s.connections| && conn.server == s.connections[c].server
                && conn.server.Some? && conn.server.value < |s.processes|
                && SlotOf(conn) == Some(|s.processes[conn.server.value].queue.senders|))
  {
    ConnectionsMove(s, a);
  }

  lemma SlotStep(s: State, a: Action)
    requires ConnectionInv(s) && SlotInv(s) && Enabled(s, a)
    ensures SlotInv(Next(s, a))
  {
    var t := Next(s, a);
    forall c: nat, d: nat | c < d < |t.connections| ensures Apart(t.connections[c], t.connections[d]) {
      SlotMoves(s, a, c);
      SlotMoves(s, a, d);
      if c < |s.connections| && d < |s.connections| { assert Apart(s.connections[c], s.connections[d]); }
      if c < |s.connections| && SlotOf(s.connections[c]).Some? { SlotBound(s, c); }
      if d < |s.connections| && SlotOf(s.connections[d]).Some? { SlotBound(s, d); }
    }
  }

  lemma {:induction false} SlotRun(s: State, run: seq<Action>)
    requires ForwardInv(s) && SlotInv(s) && Valid(s, run)
    ensures SlotInv(Exec(s, run))
    decreases |run|
  {
    if run != [] {
      SlotStep(s, run[0]);
      StepForwards(s, run[0]);
      SlotRun(Next(s, run[0]), run[1..]);
    }
  }

  // An attempt enqueues at most once: no two connections share a call into a queue, and every
  // queue holds exactly one item per call that reported success.
  lemma AttemptEnqueuesOnce(run: seq<Action>, c: nat, d: nat, q: nat)
    requires Valid(Init(), run)
    requires var s := Exec(Init(), run);
             && c < d < |s.connections| && q < |s.processes|
             && s.connections[c].server == s.connections[d].server == Some(q) && SlotOf(s.connections[c]).Some?
    ensures var s := Exec(Init(), run);
            && SlotOf(s.connections[c]) != SlotOf(s.connections[d])
            && |s.processes[q].queue.sent| == |Where(s.processes[q].queue.senders, Q.IsSent)|
  {
    ForwardRun(Init(), run);
    SlotRun(Init(), run);
    var s := Exec(Init(), run);
    assert Apart(s.connections[c], s.connections[d]) && QueueOk(s.processes[q].queue);
  }
}
