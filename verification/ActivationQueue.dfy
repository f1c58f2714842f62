/** The bounded activation queue: an unbounded channel behind a compare-and-swap
    counter, as a state machine over the atomic operations of its senders and its
    receiver. */
module ActivationQueue {
  import opened Common
  import Codec = ActivationCodec

  type Item = Codec.Request

  datatype Refusal = Full | Closed

  // Where one `try_send` stands.
  datatype Sender =
    | Entered(item: Item)                      // about to read `closed`
    | Open(item: Item)                         // read `closed == false`
    | Loaded(item: Item, seen: int)            // holds a value of the counter to compare with
    | Reserved(item: Item)                     // the swap succeeded
    | Undoing(item: Item)                      // the channel refused, reservation not yet given back
    | Sent(item: Item)
    | Failed(item: Item, why: Refusal)
  {
    predicate Holds() { Reserved? || Undoing? }
  }

  // The receiver's thread, and the life of its half of the channel.
  datatype Receiver = Waiting | Popped(item: Item)

  datatype Half = Live | Closing | Shut | Gone

  datatype State = State(
    capacity: nat,
    queued: int,
    closed: bool,
    half: Half,
    receiver: Receiver,
    channel: seq<Item>,
    senders: seq<Sender>,
    sent: seq<Item>,          // everything that entered the channel, in order
    received: seq<Item>,      // everything `recv` returned, in order
    lost: seq<Item>           // what was in the channel when the receiver was dropped
  )

  datatype Action =
    | TrySend(item: Item)
    | Step(sender: nat, spurious: bool)   // `compare_exchange_weak` may fail spuriously
    | SenderClose
    | Pop                                 // `rx.next()` yields
    | Count                               // the decrement after it
    | CloseFlag                           // `closed.store(true)` in the receiver's `close`
    | CloseHalf                           // `rx.close()`
    | Drop

  // `activation_channel`
  function Init(capacity: nat): State {
    State(Max(capacity, 1), 0, false, Live, Waiting, [], [], [], [], [])
  }

  predicate Enabled(s: State, a: Action) {
    match a
    case TrySend(_) => true
    case Step(i, _) => i < |s.senders| && !s.senders[i].Sent? && !s.senders[i].Failed?
    case SenderClose => true
    case Pop => s.receiver.Waiting? && s.channel != [] && (s.half.Live? || s.half.Shut?)
    case Count => s.receiver.Popped?
    case CloseFlag => s.half.Live? && s.receiver.Waiting?
    case CloseHalf => s.half.Closing?
    case Drop => s.half.Shut? && s.receiver.Waiting?
  }

  // One atomic operation of `try_send`.
  function SenderStep(s: State, i: nat, spurious: bool): State
    requires Enabled(s, Step(i, spurious))
  {
    match s.senders[i]
    case Entered(x) =>
      s.(senders := s.senders[i := if s.closed then Failed(x, Closed) else Open(x)])
    case Open(x) =>
      s.(senders := s.senders[i := Loaded(x, s.queued)])
    case Loaded(x, seen) =>
      if seen >= s.capacity then s.(senders := s.senders[i := Failed(x, Full)])
      else if s.queued == seen && !spurious then
        s.(senders := s.senders[i := Reserved(x)], queued := s.queued + 1)
      else s.(senders := s.senders[i := Loaded(x, s.queued)])
    case Reserved(x) =>
      if s.half.Live? || s.half.Closing? then
        s.(senders := s.senders[i := Sent(x)], channel := s.channel + [x], sent := s.sent + [x])
      else s.(senders := s.senders[i := Undoing(x)])
    case Undoing(x) =>
      s.(senders := s.senders[i := Failed(x, Closed)], queued := s.queued - 1)
    case _ => s
  }

  function Next(s: State, a: Action): State
    requires Enabled(s, a)
  {
    match a
    case TrySend(x) => s.(senders := s.senders + [Entered(x)])
    case Step(i, spurious) => SenderStep(s, i, spurious)
    case SenderClose => s.(closed := true)
    case Pop => s.(receiver := Popped(s.channel[0]), channel := s.channel[1..])
    case Count =>
      s.(receiver := Waiting, queued := s.queued - 1, received := s.received + [s.receiver.item])
    case CloseFlag => s.(closed := true, half := Closing)
    case CloseHalf => s.(half := Shut)
    case Drop => s.(half := Gone, lost := s.channel, channel := [])
  }

  predicate Valid(s: State, run: seq<Action>)
    decreases |run|
  {
    run == [] || (Enabled(s, run[0]) && Valid(Next(s, run[0]), run[1..]))
  }

  function Exec(s: State, run: seq<Action>): State
    requires Valid(s, run)
    decreases |run|
  {
    if run == [] then s else Exec(Next(s, run[0]), run[1..])
  }

  // ----- accounting

  predicate HoldsSlot(sender: Sender) { sender.Holds() }

  function InHand(r: Receiver): seq<Item> {
    match r case Waiting => [] case Popped(x) => [x]
  }

  ghost predicate Inv(s: State) {
    && s.queued == |s.channel| + |Where(s.senders, HoldsSlot)| + |InHand(s.receiver)| + |s.lost|
    && s.queued <= s.capacity
    && s.sent == s.received + InHand(s.receiver) + s.channel + s.lost
    && (s.lost != [] ==> s.half.Gone?)
    && (s.half.Gone? ==> s.channel == [])
    && (s.half.Gone? ==> s.receiver.Waiting?)
    && (!s.half.Live? ==> s.closed)
    && s.capacity >= 1
    && (s.half.Closing? ==> s.receiver.Waiting?)
  }

  // A reservation is given back only after the channel refused.
  ghost predicate UndoInv(s: State) {
    s.half.Live? || s.half.Closing? ==> forall i | 0 <= i < |s.senders| :: !s.senders[i].Undoing?
  }

  // What a call reports as sent did enter the channel.
  ghost predicate SentInv(s: State) {
    forall i | 0 <= i < |s.senders| && s.senders[i].Sent? :: s.senders[i].item in s.sent
  }

  // How one operation of a call moves the counter and the channel.
  lemma SenderShape(s: State, i: nat, spurious: bool)
    requires Enabled(s, Step(i, spurious))
    ensures var t := SenderStep(s, i, spurious);
            && |t.senders| == |s.senders| && t.senders == s.senders[i := t.senders[i]]
            && t == s.(senders := t.senders, queued := t.queued, channel := t.channel, sent := t.sent)
            && t.queued - |t.channel| - (if t.senders[i].Holds() then 1 else 0)
               == s.queued - |s.channel| - (if s.senders[i].Holds() then 1 else 0)
            && (t.queued <= s.queued || t.queued == s.queued + 1 <= s.capacity)
            && ((t.channel == s.channel && t.sent == s.sent)
                || (t.channel == s.channel + [s.senders[i].item] && t.sent == s.sent + [s.senders[i].item]
                    && (s.half.Live? || s.half.Closing?)))
  {
  }

  lemma SenderKeeps(s: State, i: nat, spurious: bool)
    requires Inv(s) && Enabled(s, Step(i, spurious))
    ensures Inv(SenderStep(s, i, spurious))
  {
    var t := SenderStep(s, i, spurious);
    SenderShape(s, i, spurious);
    WhereUpdate(s.senders, HoldsSlot, i, t.senders[i]);
    if t.sent != s.sent {
      assert s.lost == [];
      assert s.sent + [s.senders[i].item]
          == s.received + InHand(s.receiver) + (s.channel + [s.senders[i].item]) + s.lost;
    }
  }

  lemma StepKeeps(s: State, a: Action)
    requires Inv(s) && Enabled(s, a)
    ensures Inv(Next(s, a))
  {
    match a
    case TrySend(x) => WhereAppend(s.senders, HoldsSlot, Entered(x));
    case Step(i, spurious) => SenderKeeps(s, i, spurious);
    case Pop =>
      assert [s.channel[0]] + s.channel[1..] == s.channel;
      assert s.received + [] + s.channel + s.lost == s.received + [s.channel[0]] + s.channel[1..] + s.lost;
    case Count =>
      assert (s.received + [s.receiver.item]) + [] + s.channel + s.lost
          == s.received + [s.receiver.item] + s.channel + s.lost;
    case Drop =>
      assert s.received + [] + s.channel + s.lost == s.received + [] + [] + s.channel;
    case _ =>
  }

  lemma {:induction false} RunKeeps(s: State, run: seq<Action>)
    requires Inv(s) && Valid(s, run)
    ensures Inv(Exec(s, run))
    decreases |run|
  {
    if run != [] {
      StepKeeps(s, run[0]);
      RunKeeps(Next(s, run[0]), run[1..]);
    }
  }

  predicate IsSent(sender: Sender) { sender.Sent? }

  // Every call that reports success accounts for exactly one item.
  ghost predicate OnceInv(s: State) { |s.sent| == |Where(s.senders, IsSent)| }

  lemma StepKeepsOnce(s: State, a: Action)
    requires OnceInv(s) && Enabled(s, a)
    ensures OnceInv(Next(s, a))
  {
    match a
    case TrySend(x) => WhereAppend(s.senders, IsSent, Entered(x));
    case Step(i, spurious) =>
      SenderShape(s, i, spurious);
      SentShape(s, i, spurious);
      WhereUpdate(s.senders, IsSent, i, SenderStep(s, i, spurious).senders[i]);
    case _ =>
  }

  lemma SentShape(s: State, i: nat, spurious: bool)
    requires Enabled(s, Step(i, spurious))
    ensures var t := SenderStep(s, i, spurious);
            i < |t.senders| && |t.sent| == |s.sent| + (if t.senders[i].Sent? then 1 else 0)
  {
  }

  lemma StepKeepsCalls(s: State, a: Action)
    requires UndoInv(s) && SentInv(s) && Enabled(s, a)
    ensures UndoInv(Next(s, a)) && SentInv(Next(s, a))
  {
    var t := Next(s, a);
    if t.sent != s.sent { assert t.sent == s.sent + [s.senders[a.sender].item]; }
  }

  lemma {:induction false} RunKeepsCalls(s: State, run: seq<Action>)
    requires UndoInv(s) && SentInv(s) && Valid(s, run)
    ensures UndoInv(Exec(s, run)) && SentInv(Exec(s, run))
    decreases |run|
  {
    if run != [] {
      StepKeepsCalls(s, run[0]);
      RunKeepsCalls(Next(s, run[0]), run[1..]);
    }
  }

  lemma InitInv(capacity: nat)
    ensures Inv(Init(capacity)) && UndoInv(Init(capacity)) && SentInv(Init(capacity)) && OnceInv(Init(capacity))
  {
    assert Where(Init(capacity).senders, HoldsSlot) == {} && Where(Init(capacity).senders, IsSent) == {};
  }

  lemma RunFromStart(capacity: nat, run: seq<Action>)
    requires Valid(Init(capacity), run)
    ensures Inv(Exec(Init(capacity), run)) && UndoInv(Exec(Init(capacity), run)) && SentInv(Exec(Init(capacity), run))
  {
    InitInv(capacity);
    RunKeeps(Init(capacity), run);
    RunKeepsCalls(Init(capacity), run);
  }

  // Calls are only added; each keeps its item, and what was sent stays sent.
  predicate Grows(before: seq<Sender>, after: seq<Sender>) {
    && |before| <= |after|
    && forall i | 0 <= i < |before| ::
         after[i].item == before[i].item && (before[i].Sent? || before[i].Failed? ==> after[i] == before[i])
  }

  lemma SendersGrow(s: State, a: Action)
    requires Enabled(s, a)
    ensures Grows(s.senders, Next(s, a).senders)
  {
  }

  // The counter is exact, bounds the channel, and never goes below zero.
  lemma CounterIsExact(capacity: nat, run: seq<Action>)
    requires Valid(Init(capacity), run)
    ensures var s := Exec(Init(capacity), run);
            && s.queued == |s.channel| + |Where(s.senders, HoldsSlot)| + |InHand(s.receiver)| + |s.lost|
            && |s.channel| <= s.queued <= Max(capacity, 1)
            && (s.receiver.Popped? ==> s.queued > 0)
            && (forall i | 0 <= i < |s.senders| && s.senders[i].Undoing? :: s.queued > 0)
  {
    RunFromStart(capacity, run);
    CapacityIsFixed(Init(capacity), run);
    var s := Exec(Init(capacity), run);
    forall i | 0 <= i < |s.senders| && s.senders[i].Undoing? ensures s.queued > 0 {
      assert i in Where(s.senders, HoldsSlot);
    }
  }

  lemma {:induction false} CapacityIsFixed(s: State, run: seq<Action>)
    requires Valid(s, run)
    ensures Exec(s, run).capacity == s.capacity
    decreases |run|
  {
    if run != [] { CapacityIsFixed(Next(s, run[0]), run[1..]); }
  }

  // Requests come out in the order they went in, none twice, none invented.
  lemma ReceivedInOrder(capacity: nat, run: seq<Action>)
    requires Valid(Init(capacity), run)
    ensures var s := Exec(Init(capacity), run);
            && s.received <= s.sent
            && s.sent == s.received + InHand(s.receiver) + s.channel + s.lost
  {
    RunFromStart(capacity, run);
  }

  // ----- closing

  // A call that has not read the flag when it is already set.
  predicate Late(s: State, i: nat) {
    && s.closed && i < |s.senders|
    && (s.senders[i].Entered? || s.senders[i] == Failed(s.senders[i].item, Closed))
  }

  lemma {:induction false} LateStaysOut(s: State, run: seq<Action>, i: nat)
    requires Valid(s, run) && Late(s, i)
    ensures Late(Exec(s, run), i)
    decreases |run|
  {
    if run != [] {
      assert Late(Next(s, run[0]), i);
      LateStaysOut(Next(s, run[0]), run[1..], i);
    }
  }

  // A `try_send` that starts after either side closed never enqueues.
  lemma NothingEntersAfterClose(s: State, item: Item, run: seq<Action>)
    requires s.closed && Valid(Next(s, TrySend(item)), run)
    ensures var t := Exec(Next(s, TrySend(item)), run);
            && |s.senders| < |t.senders|
            && !t.senders[|s.senders|].Sent? && !t.senders[|s.senders|].Holds()
  {
    LateStaysOut(Next(s, TrySend(item)), run, |s.senders|);
  }

  lemma {:induction false} ValidAppend(s: State, run: seq<Action>, a: Action) returns (longer: seq<Action>)
    requires Valid(s, run) && Enabled(Exec(s, run), a)
    ensures longer == run + [a] && Valid(s, longer) && Exec(s, longer) == Next(Exec(s, run), a)
    decreases |run|
  {
    longer := run + [a];
    if run != [] {
      var rest := ValidAppend(Next(s, run[0]), run[1..], a);
      assert longer[1..] == rest;
    }
  }

  // Whether a call can still enter, read off the state: it must be past its check, the
  // receiving half must not be shut, and it must hold a slot or be able to get one. While
  // the receiver is live it can always make room; once it has begun to close it cannot.
  predicate CanEnter(s: State, i: nat)
    requires i < |s.senders|
  {
    && (s.half.Live? || s.half.Closing?)
    && match s.senders[i]
       case Open(_) => s.half.Live? || s.queued < s.capacity
       case Loaded(_, seen) => seen < s.capacity && (s.half.Live? || s.queued < s.capacity)
       case Reserved(_) => true
       case _ => false
  }

  // A call that cannot enter, in a closed queue.
  ghost predicate Barred(s: State, i: nat) {
    Inv(s) && UndoInv(s) && s.closed && i < |s.senders| && !s.senders[i].Sent? && !CanEnter(s, i)
  }

  lemma BarredStep(s: State, a: Action, i: nat)
    requires Barred(s, i) && Enabled(s, a)
    ensures i < |Next(s, a).senders| && !Next(s, a).senders[i].Sent? && !CanEnter(Next(s, a), i) && Next(s, a).closed
  {
  }

  lemma {:induction false} BarredForever(s: State, run: seq<Action>, i: nat)
    requires Barred(s, i) && SentInv(s) && Valid(s, run)
    ensures i < |Exec(s, run).senders| && !Exec(s, run).senders[i].Sent?
    decreases |run|
  {
    if run != [] {
      BarredStep(s, run[0], i);
      StepKeeps(s, run[0]);
      StepKeepsCalls(s, run[0]);
      BarredForever(Next(s, run[0]), run[1..], i);
    }
  }

  // A run from `s` that leaves call `i` where it is.
  ghost predicate Beside(s: State, run: seq<Action>, i: nat) {
    && i < |s.senders| && Valid(s, run)
    && var t := Exec(s, run);
       t.half == s.half && t.capacity == s.capacity && i < |t.senders| && t.senders[i] == s.senders[i]
  }

  lemma AlsoBeside(s: State, run: seq<Action>, a: Action, i: nat) returns (longer: seq<Action>)
    requires Beside(s, run, i) && Enabled(Exec(s, run), a)
    requires a.Pop? || a.Count? || (a.Step? && a.sender != i)
    ensures longer == run + [a] && Beside(s, longer, i) && Exec(s, longer) == Next(Exec(s, run), a)
  {
    longer := ValidAppend(s, run, a);
  }

  // A full queue with nothing popped and nothing waiting has a reservation in it.
  lemma Holder(s: State, i: nat) returns (k: nat)
    requires Inv(s) && UndoInv(s) && s.half.Live? && s.queued == s.capacity
    requires s.channel == [] && s.receiver.Waiting? && i < |s.senders| && !s.senders[i].Holds()
    ensures k < |s.senders| && k != i && s.senders[k].Reserved?
  {
    assert |Where(s.senders, HoldsSlot)| >= 1;
    k :| k in Where(s.senders, HoldsSlot);
  }

  // While the receiver is live, room can be made without the call's doing.
  lemma MakeRoom(s: State, i: nat) returns (run: seq<Action>)
    requires Inv(s) && UndoInv(s) && s.half.Live? && i < |s.senders| && !s.senders[i].Holds()
    ensures Beside(s, run, i) && Exec(s, run).queued < s.capacity
  {
    run := [];
    if s.queued == s.capacity {
      if s.receiver.Waiting? {
        if s.channel == [] {
          var k := Holder(s, i);
          run := AlsoBeside(s, run, Step(k, false), i);
        }
        run := AlsoBeside(s, run, Pop, i);
      }
      run := AlsoBeside(s, run, Count, i);
    }
  }

  // With room, a current value is swapped and the item sent; a stale one is reloaded first.
  lemma EnterWithRoom(s: State, i: nat) returns (run: seq<Action>)
    requires i < |s.senders| && (s.half.Live? || s.half.Closing?)
    requires s.senders[i].Reserved? || s.queued < s.capacity
    requires s.senders[i].Reserved? || s.senders[i].Open? || (s.senders[i].Loaded? && s.senders[i].seen < s.capacity)
    ensures Valid(s, run) && i < |Exec(s, run).senders| && Exec(s, run).senders[i].Sent?
  {
    run := [];
    if !s.senders[i].Reserved? {
      if s.senders[i].Open? || s.senders[i].seen != s.queued {
        run := ValidAppend(s, run, Step(i, false));
      }
      assert Exec(s, run).senders[i] == Loaded(s.senders[i].item, s.queued);
      run := ValidAppend(s, run, Step(i, false));
    }
    assert Exec(s, run).senders[i] == Reserved(s.senders[i].item) && Exec(s, run).half == s.half;
    run := ValidAppend(s, run, Step(i, false));
  }

  // The same from the very start of a call.
  lemma SendsWithRoom(s: State, i: nat) returns (run: seq<Action>)
    requires i < |s.senders| && s.senders[i].Entered? && s.half.Live? && !s.closed && s.queued < s.capacity
    ensures Valid(s, run)
    ensures Exec(s, run)
            == s.(senders := s.senders[i := Sent(s.senders[i].item)], queued := s.queued + 1,
                  channel := s.channel + [s.senders[i].item], sent := s.sent + [s.senders[i].item])
  {
    var x := s.senders[i].item;
    run := ValidAppend(s, [], Step(i, false));
    run := ValidAppend(s, run, Step(i, false));
    assert Exec(s, run) == s.(senders := s.senders[i := Loaded(x, s.queued)]);
    run := ValidAppend(s, run, Step(i, false));
    assert Exec(s, run) == s.(senders := s.senders[i := Reserved(x)], queued := s.queued + 1);
    run := ValidAppend(s, run, Step(i, false));
    assert Exec(s, run).senders == s.senders[i := Sent(x)];
  }

  lemma {:induction false} ValidConcat(s: State, a: seq<Action>, b: seq<Action>)
    requires Valid(s, a) && Valid(Exec(s, a), b)
    ensures Valid(s, a + b) && Exec(s, a + b) == Exec(Exec(s, a), b)
    decreases |a|
  {
    if a == [] {
      assert a + b == b;
    } else {
      assert (a + b)[1..] == a[1..] + b;
      ValidConcat(Next(s, a[0]), a[1..], b);
    }
  }

  lemma CanEnterEnters(s: State, i: nat) returns (run: seq<Action>)
    requires Inv(s) && UndoInv(s) && i < |s.senders| && CanEnter(s, i)
    ensures Valid(s, run) && i < |Exec(s, run).senders| && Exec(s, run).senders[i].Sent?
  {
    if s.senders[i].Reserved? || s.half.Closing? {
      run := EnterWithRoom(s, i);
    } else {
      var before := MakeRoom(s, i);
      var after := EnterWithRoom(Exec(s, before), i);
      ValidConcat(s, before, after);
      run := before + after;
    }
  }

  ghost predicate EventuallySent(s: State, i: nat) {
    exists run: seq<Action> :: Valid(s, run) && i < |Exec(s, run).senders| && Exec(s, run).senders[i].Sent?
  }

  // Exactly which calls may still enter a closed queue: the flag alone stops only those
  // that have not read it yet.
  lemma EntersAfterCloseIff(capacity: nat, run: seq<Action>, i: nat)
    requires Valid(Init(capacity), run)
    requires var s := Exec(Init(capacity), run); s.closed && i < |s.senders| && !s.senders[i].Sent?
    ensures var s := Exec(Init(capacity), run); EventuallySent(s, i) <==> CanEnter(s, i)
  {
    var s := Exec(Init(capacity), run);
    RunFromStart(capacity, run);
    if CanEnter(s, i) {
      var more := CanEnterEnters(s, i);
    } else {
      forall more: seq<Action> | Valid(s, more)
        ensures i < |Exec(s, more).senders| && !Exec(s, more).senders[i].Sent?
      {
        BarredForever(s, more, i);
      }
    }
  }

  // Such a call exists: a run from the start in which one enters after close.
  lemma LateSendMayEnter(item: Item) returns (run: seq<Action>, a: Action)
    ensures Valid(Init(1), run) && Exec(Init(1), run).closed && Exec(Init(1), run).sent == []
    ensures Enabled(Exec(Init(1), run), a) && Next(Exec(Init(1), run), a).sent == [item]
  {
    a := Step(0, false);
    run := [];
    run := ValidAppend(Init(1), run, TrySend(item));
    run := ValidAppend(Init(1), run, a);
    run := ValidAppend(Init(1), run, a);
    assert Exec(Init(1), run).senders == [Loaded(item, 0)];
    run := ValidAppend(Init(1), run, SenderClose);
    run := ValidAppend(Init(1), run, a);
    assert Exec(Init(1), run).senders == [Reserved(item)];
  }

  // Once the receiver's half is shut nothing enters any more, whoever is where.
  lemma {:induction false} ShutIsFinal(s: State, run: seq<Action>)
    requires Valid(s, run) && (s.half.Shut? || s.half.Gone?)
    ensures Exec(s, run).sent == s.sent && (Exec(s, run).half.Shut? || Exec(s, run).half.Gone?)
    decreases |run|
  {
    if run != [] { ShutIsFinal(Next(s, run[0]), run[1..]); }
  }

  // ----- why a call is refused

  // The counter values that call `i` loads, before its first swap and after each failed one.
  function LoadedBy(s: State, a: Action, i: nat): seq<int> {
    if a.Step? && a.sender == i && i < |s.senders| then
      match s.senders[i]
      case Open(_) => [s.queued]
      case Loaded(_, seen) => if seen < s.capacity && (s.queued != seen || a.spurious) then [s.queued] else []
      case _ => []
    else []
  }

  function Loads(s: State, run: seq<Action>, i: nat): seq<int>
    requires Valid(s, run)
    decreases |run|
  {
    if run == [] then [] else LoadedBy(s, run[0], i) + Loads(Next(s, run[0]), run[1..], i)
  }

  // What a call that holds a value, or was refused, has to show for it.
  ghost predicate Reasoned(s: State, i: nat, loads: seq<int>) {
    i < |s.senders| ==>
      match s.senders[i]
      case Loaded(_, seen) => loads != [] && loads[|loads| - 1] == seen
      case Undoing(_) => s.closed
      case Failed(_, Full) => loads != [] && loads[|loads| - 1] == s.capacity
      case Failed(_, Closed) => s.closed
      case _ => true
  }

  lemma ReasonedStep(s: State, a: Action, i: nat, loads: seq<int>)
    requires Inv(s) && Reasoned(s, i, loads) && Enabled(s, a)
    requires i < |s.senders| && s.senders[i].Loaded? ==> s.senders[i].seen <= s.capacity
    ensures Reasoned(Next(s, a), i, loads + LoadedBy(s, a, i))
  {
    assert loads + [] == loads;
  }

  ghost predicate LoadsInv(s: State) {
    forall i | 0 <= i < |s.senders| && s.senders[i].Loaded? :: s.senders[i].seen <= s.capacity
  }

  lemma LoadsStep(s: State, a: Action)
    requires Inv(s) && LoadsInv(s) && Enabled(s, a)
    ensures LoadsInv(Next(s, a))
  {
  }

  lemma {:induction false} ReasonedRun(s: State, run: seq<Action>, i: nat, loads: seq<int>)
    returns (t: State, all: seq<int>)
    requires Inv(s) && LoadsInv(s) && Valid(s, run) && Reasoned(s, i, loads)
    ensures t == Exec(s, run) && all == loads + Loads(s, run, i) && Reasoned(t, i, all)
    decreases |run|
  {
    if run == [] {
      t, all := s, loads;
      assert loads + [] == loads;
    } else {
      ReasonedStep(s, run[0], i, loads);
      LoadsStep(s, run[0]);
      StepKeeps(s, run[0]);
      t, all := ReasonedRun(Next(s, run[0]), run[1..], i, loads + LoadedBy(s, run[0], i));
      LoadsFirst(s, run, i, loads);
    }
  }

  lemma LoadsFirst(s: State, run: seq<Action>, i: nat, loads: seq<int>)
    requires run != [] && Valid(s, run)
    ensures (loads + LoadedBy(s, run[0], i)) + Loads(Next(s, run[0]), run[1..], i) == loads + Loads(s, run, i)
  {
    Reassociated(loads, LoadedBy(s, run[0], i), Loads(Next(s, run[0]), run[1..], i));
  }

  lemma Reassociated(a: seq<int>, b: seq<int>, c: seq<int>)
    ensures (a + b) + c == a + (b + c)
  {
  }

  // Over every run: a call that is refused as full last found the counter at the capacity, and one that
  // is refused as closed is refused by a closed queue.
  lemma RefusalHasReason(capacity: nat, run: seq<Action>, i: nat)
    requires Valid(Init(capacity), run)
    requires var s := Exec(Init(capacity), run); i < |s.senders| && s.senders[i].Failed?
    ensures var s := Exec(Init(capacity), run);
            var loads := Loads(Init(capacity), run, i);
            if s.senders[i].why == Full then loads != [] && loads[|loads| - 1] == Max(capacity, 1) else s.closed
  {
    InitInv(capacity);
    var t, all := ReasonedRun(Init(capacity), run, i, []);
    assert all == Loads(Init(capacity), run, i);
    CapacityIsFixed(Init(capacity), run);
  }

  // ----- the receiver gets everything

  // Whoever closes, a receiver that keeps receiving gets every item that is waiting, in order.
  lemma {:induction false} ReceiverDrains(s: State) returns (run: seq<Action>)
    requires s.receiver.Waiting? && (s.half.Live? || s.half.Shut?)
    ensures Valid(s, run)
    ensures Exec(s, run) == s.(channel := [], received := s.received + s.channel, queued := s.queued - |s.channel|)
    decreases |s.channel|
  {
    if s.channel == [] {
      run := [];
      assert s.received + s.channel == s.received;
    } else {
      var one := ValidAppend(s, [], Pop);
      one := ValidAppend(s, one, Count);
      var t := Exec(s, one);
      assert t == s.(channel := s.channel[1..], received := s.received + [s.channel[0]], queued := s.queued - 1);
      var rest := ReceiverDrains(t);
      ValidConcat(s, one, rest);
      run := one + rest;
      assert s.received + [s.channel[0]] + s.channel[1..] == s.received + s.channel;
    }
  }
}
