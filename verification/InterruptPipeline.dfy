/** The whole interrupt path: device latch, the URBs on their way to the host's
    continuous reader, and host latch.  Each raise carries its number, so that
    "fresher" has a meaning even when two raises have the same value.  Every operation
    is one atomic step here; DeviceLatchSteps and HostLatchSteps take the two ends
    apart. */
module InterruptPipeline {
  import opened Counting
  import opened Wdf
  import D = DeviceLatch
  import H = HostLatch

  /** Raises are numbered from 1; 0 marks an emptied mailbox. */
  datatype Signal = Signal(no: nat, value: uint32)

  const NOTHING := Signal(0, 0)

  datatype Taken = Taken(waiter: H.Waiter, signal: Signal)

  datatype Pipe = Pipe(
    dev: D.Latch<Signal>,
    wire: seq<D.Completion<Signal>>,      // completed URBs not yet seen by the reader
    host: H.Latch<Signal>,
    raised: seq<uint32>,                  // every value raised so far
    taken: Option<Taken>,                 // the last signal taken by an IOCTL, with room for it or not
    log: seq<H.Completion<Signal>>)       // IOCTLs completed so far

  const INIT := Pipe(D.Init(NOTHING), [], H.Init(NOTHING), [], None, [])

  datatype Op =
    | Raise(value: uint32)
    | Submit(urb: D.Urb)
    | CancelUrb(k: nat)
    | Sleep
    | Wake
    | Arrive
    | Ask(waiter: H.Waiter)
    | CancelAsk(k: nat)

  /** The continuous reader asks for exactly the flags. */
  predicate Enabled(p: Pipe, op: Op) {
    match op
    case Submit(urb) => D.Readable(urb)
    case Arrive => p.wire != []
    case _ => true
  }

  function DeviceOp(p: Pipe, op: Op): Option<D.Op<Signal>> {
    match op
    case Raise(value) => Some(D.Raise(Signal(|p.raised| + 1, value)))
    case Submit(urb) => Some(D.Submit(urb))
    case CancelUrb(k) => Some(D.CancelAt(k))
    case Sleep => Some(D.Sleep)
    case Wake => Some(D.Wake)
    case _ => None
  }

  /** What the reader makes of a completed URB. */
  function ReaderOp(c: D.Completion<Signal>): H.Op<Signal> {
    match c
    case Done(_, signal) => H.ReaderDone(STATUS_SUCCESS, signal)
    case Failed(_, status) => H.ReaderDone(status, NOTHING)
  }

  function Next(p: Pipe, op: Op): Pipe
    requires Enabled(p, op)
  {
    match op
    case Raise(_) | Submit(_) | CancelUrb(_) | Sleep | Wake =>
      var (dev, out) := D.Step(p.dev, DeviceOp(p, op).value, NOTHING);
      p.(dev := dev, wire := p.wire + out, raised := p.raised + if op.Raise? then [op.value] else [])
    case Arrive =>
      var (host, out) := H.Step(p.host, ReaderOp(p.wire[0]), NOTHING);
      p.(wire := p.wire[1..], host := host, log := p.log + out,
         taken := if p.wire[0].Done? && p.host.waiting != [] then
                     Some(Taken(p.host.waiting[0], p.wire[0].value)) else p.taken)
    case Ask(waiter) =>
      var (host, out) := H.Step(p.host, H.GetMessage(waiter), NOTHING);
      p.(host := host, log := p.log + out,
         taken := if p.host.unread > 0 then Some(Taken(waiter, p.host.latest)) else p.taken)
    case CancelAsk(k) =>
      var (host, out) := H.Step(p.host, H.CancelAt(k), NOTHING);
      p.(host := host, log := p.log + out)
  }

  // ----- Where signals are

  function Carried(c: D.Completion<Signal>): seq<Signal> {
    if c.Done? then [c.value] else []
  }

  function Signals(cs: seq<D.Completion<Signal>>): seq<Signal> {
    if cs == [] then [] else Carried(cs[0]) + Signals(cs[1..])
  }

  function Cached(unread: nat, latest: Signal): seq<Signal> {
    if unread > 0 then [latest] else []
  }

  /** The signals not yet seen by the host, oldest first. */
  function Behind(p: Pipe): seq<Signal> {
    Signals(p.wire) + Cached(p.dev.unread, p.dev.latest)
  }

  /** The signals still under way, those nearest the waiters first. */
  function UnderWay(p: Pipe): seq<Signal> {
    Cached(p.host.unread, p.host.latest) + Behind(p)
  }

  function TakenNo(p: Pipe): nat {
    if p.taken.Some? then p.taken.value.signal.no else 0
  }

  ghost predicate Genuine(s: Signal, raised: seq<uint32>) {
    1 <= s.no <= |raised| && s.value == raised[s.no - 1]
  }

  /** Genuine signals in raise order, all newer than number `after'. */
  ghost predicate Ordered(ss: seq<Signal>, raised: seq<uint32>, after: nat) {
    && (forall i, j | 0 <= i < j < |ss| :: ss[i].no < ss[j].no)
    && (forall i | 0 <= i < |ss| :: Genuine(ss[i], raised) && after < ss[i].no)
  }

  ghost predicate Channels(p: Pipe) {
    && D.Sound(p.dev) && H.Sound(p.host, NOTHING)
    && (forall i | 0 <= i < |p.dev.deferred| :: D.Readable(p.dev.deferred[i]))
    && (forall i | 0 <= i < |p.wire| :: p.wire[i].Failed? ==> !NtSuccess(p.wire[i].status))
  }

  /** Signals under way are genuine, in raise order, and newer than any signal
      already taken by an IOCTL. */
  ghost predicate InOrder(p: Pipe) {
    && Ordered(UnderWay(p), p.raised, TakenNo(p))
    && (p.taken.Some? ==> Genuine(p.taken.value.signal, p.raised))
  }

  /** The IOCTLs received genuine signals in raise order, none newer than number
      `newest'. */
  ghost predicate LogInOrder(log: seq<H.Completion<Signal>>, raised: seq<uint32>, newest: nat) {
    && (forall i | 0 <= i < |log| :: log[i].Done? ==> Genuine(log[i].value, raised) && log[i].value.no <= newest)
    && (forall i, j | 0 <= i < j < |log| :: log[i].Done? && log[j].Done? ==>
          log[i].value.no <= log[j].value.no)
  }

  ghost predicate Observed(p: Pipe) {
    LogInOrder(p.log, p.raised, TakenNo(p))
  }

  ghost predicate Good(p: Pipe) {
    Channels(p) && InOrder(p) && Observed(p)
  }

  lemma TakenWasRaised(p: Pipe)
    requires Good(p)
    ensures TakenNo(p) <= |p.raised|
  {
  }

  /** The number of the last signal that an IOCTL received, from the completions. */
  function ReceivedNo(log: seq<H.Completion<Signal>>): nat {
    if log == [] then 0
    else
      var last := log[|log| - 1];
      if last.Done? then last.value.no else ReceivedNo(log[..|log| - 1])
  }

  /** The freshest signal is the last one under way or has been received. */
  ghost predicate FreshestKept(p: Pipe) {
    Kept(UnderWay(p), |p.raised|, ReceivedNo(p.log))
  }

  ghost predicate Kept(ss: seq<Signal>, newest: nat, received: nat) {
    newest == received || (ss != [] && ss[|ss| - 1].no == newest)
  }

  /** A reader failure other than a cancellation arrives while the host holds a
      signal unread. */
  predicate Erasing(p: Pipe, op: Op) {
    && op.Arrive? && p.wire != [] && p.wire[0].Failed?
    && p.wire[0].status != STATUS_CANCELLED
    && p.host.unread > 0
  }

  // ----- Order and freshness, step by step

  lemma {:induction false} SignalsConcat(a: seq<D.Completion<Signal>>, b: seq<D.Completion<Signal>>)
    ensures Signals(a + b) == Signals(a) + Signals(b)
  {
    hide Carried;
    if a == [] {
      assert a + b == b;
    } else {
      SignalsConcat(a[1..], b);
      assert (a + b)[0] == a[0] && (a + b)[1..] == a[1..] + b;
      Reassociate(Carried(a[0]), Signals(a[1..]), Signals(b));
    }
  }

  lemma {:induction false} NoSignals(cs: seq<D.Completion<Signal>>)
    requires forall i | 0 <= i < |cs| :: cs[i].Failed?
    ensures Signals(cs) == []
  {
    if cs != [] {
      NoSignals(cs[1..]);
    }
  }

  lemma OneSignal(urb: D.Urb, signal: Signal)
    ensures Signals([D.Done(urb, signal)]) == [signal]
  {
    assert [D.Done(urb, signal)][1..] == [];
  }

  lemma ChannelsStep(p: Pipe, op: Op)
    requires Channels(p) && Enabled(p, op)
    ensures Channels(Next(p, op))
  {
    if DeviceOp(p, op).Some? {
      D.SoundStep(p.dev, DeviceOp(p, op).value, NOTHING);
    } else if op.Arrive? {
      H.SoundStep(p.host, ReaderOp(p.wire[0]), NOTHING);
    }
  }

  /** A raise joins the signals under way at the far end, taking the place of one
      still cached on the device. */
  lemma RaiseStep(p: Pipe, value: uint32)
    requires Channels(p)
    ensures Behind(Next(p, Raise(value))) == Signals(p.wire) + [Signal(|p.raised| + 1, value)]
    ensures Next(p, Raise(value)).host == p.host
  {
    var signal := Signal(|p.raised| + 1, value);
    if p.dev.deferred != [] {
      var c := D.Complete(p.dev.deferred[0], signal);
      assert [c][1..] == [];
      SignalsConcat(p.wire, [c]);
      assert Next(p, Raise(value)).wire == p.wire + [c];
    } else {
      assert Next(p, Raise(value)).wire == p.wire;
    }
  }

  /** What a device operation other than a raise sends, and what it leaves cached. */
  lemma DeviceSends(l: D.Latch<Signal>, op: D.Op<Signal>)
    requires !op.Raise? && (op.Submit? ==> D.Readable(op.urb))
    ensures var (l', out) := D.Step(l, op, NOTHING);
            if op.Submit? && l.unread > 0 then out == [D.Done(op.urb, l.latest)] && l'.unread == 0
            else && (forall i | 0 <= i < |out| :: out[i].Failed?)
                 && l'.unread == l.unread && (l.unread > 0 ==> l'.latest == l.latest)
  {
  }

  /** No other device operation gains or loses a signal. */
  lemma DeviceStep(p: Pipe, op: Op)
    requires Channels(p) && DeviceOp(p, op).Some? && !op.Raise? && Enabled(p, op)
    ensures Behind(Next(p, op)) == Behind(p) && Next(p, op).host == p.host
  {
    hide D.Step, Channels, Signals;
    var out := D.Step(p.dev, DeviceOp(p, op).value, NOTHING).1;
    DeviceSends(p.dev, DeviceOp(p, op).value);
    SignalsConcat(p.wire, out);
    if op.Submit? && p.dev.unread > 0 {
      OneSignal(op.urb, p.dev.latest);
    } else {
      NoSignals(out);
    }
  }

  /** A signal reaches the reader: the waiters get it, or the mailbox does in
      place of an older one. */
  lemma ArriveDone(p: Pipe)
    requires Channels(p) && p.wire != [] && p.wire[0].Done?
    ensures var p', v := Next(p, Arrive), p.wire[0].value;
            && Behind(p) == [v] + Behind(p')
            && if p.host.waiting != [] then
                 p.host.unread == p'.host.unread == 0 && p'.taken == Some(Taken(p.host.waiting[0], v))
               else
                 p'.host.unread > 0 && p'.host.latest == v && p'.taken == p.taken
  {
  }

  /** A failure reaches the reader: it erases the mailbox unless it is a
      cancellation. */
  lemma ArriveFailed(p: Pipe)
    requires Channels(p) && p.wire != [] && p.wire[0].Failed?
    ensures var p' := Next(p, Arrive);
            && Behind(p') == Behind(p) && p'.taken == p.taken
            && if p.wire[0].status != STATUS_CANCELLED then p'.host.unread == 0
               else p'.host.unread == p.host.unread && p'.host.latest == p.host.latest
  {
  }

  /** An IOCTL takes a signal off the pipeline. */
  predicate Takes(p: Pipe, op: Op) {
    || (op.Arrive? && p.wire != [] && p.wire[0].Done? && p.host.waiting != [])
    || (op.Ask? && p.host.unread > 0)
  }

  predicate HasRoom(w: H.Waiter) {
    w.room >= H.FLAGS_SIZE
  }

  /** ... and at least one IOCTL that takes it has room for it. */
  predicate Receives(p: Pipe, op: Op) {
    && Takes(p, op)
    && if op.Ask? then HasRoom(op.waiter)
       else exists i | 0 <= i < |p.host.waiting| :: HasRoom(p.host.waiting[i])
  }

  lemma RaisedStep(p: Pipe, op: Op)
    requires Enabled(p, op)
    ensures Next(p, op).raised == p.raised + if op.Raise? then [op.value] else []
  {
  }

  lemma DeviceTakesNothing(p: Pipe, op: Op)
    requires Enabled(p, op) && DeviceOp(p, op).Some?
    ensures Next(p, op).taken == p.taken
  {
  }

  /** An IOCTL made takes what the mailbox holds; a cancelled one takes nothing. */
  lemma IoctlStep(p: Pipe, op: Op)
    requires Channels(p) && Enabled(p, op) && (op.Ask? || op.CancelAsk?)
    ensures var p' := Next(p, op);
            && Behind(p') == Behind(p)
            && if Takes(p, op) then p'.host.unread == 0 && p'.taken == Some(Taken(op.waiter, p.host.latest))
               else p'.taken == p.taken && p'.host.unread == p.host.unread
                    && (p.host.unread > 0 ==> p'.host.latest == p.host.latest)
  {
    hide Signals;
  }

  /** Taking all cases together: signals join at the far end, and leave at the near
      end when they are taken, overwritten by a newer one, or erased. */
  lemma UnderWayStep(p: Pipe, op: Op)
    requires Channels(p) && Enabled(p, op) && !op.Raise?
    ensures var ss, ss', p' := UnderWay(p), UnderWay(Next(p, op)), Next(p, op);
            && p'.raised == p.raised
            && if Takes(p, op) then
                 ss != [] && ss' == ss[1..] && p'.taken.Some? && p'.taken.value.signal == ss[0]
               else
                 && p'.taken == p.taken
                 && if Erasing(p, op) then ss != [] && ss[0] == p.host.latest && ss' == ss[1..]
                    else ss' == ss || (|ss| > 1 && ss' == ss[1..])
  {
    hide Next, Behind, Channels;
    RaisedStep(p, op);
    match op
    case Submit(_) | CancelUrb(_) | Sleep | Wake =>
      DeviceStep(p, op);
      DeviceTakesNothing(p, op);
    case Arrive => if p.wire[0].Done? { ArriveDone(p); } else { ArriveFailed(p); }
    case _ => IoctlStep(p, op);
  }

  lemma OrderedRest(ss: seq<Signal>, raised: seq<uint32>, after: nat)
    requires Ordered(ss, raised, after) && ss != []
    ensures Ordered(ss[1..], raised, after) && Ordered(ss[1..], raised, ss[0].no)
    ensures Genuine(ss[0], raised)
  {
  }

  lemma OrderedJoin(keep: seq<Signal>, more: seq<Signal>, raised: seq<uint32>, after: nat, value: uint32)
    requires Ordered(keep + more, raised, after) && after <= |raised|
    ensures Ordered(keep + [Signal(|raised| + 1, value)], raised + [value], after)
  {
    assert forall i | 0 <= i < |keep| :: (keep + more)[i] == keep[i];
  }

  lemma InOrderRaise(p: Pipe, value: uint32)
    requires Channels(p) && InOrder(p)
    ensures InOrder(Next(p, Raise(value)))
  {
    hide Signals, Ordered, Channels;
    var keep := Cached(p.host.unread, p.host.latest) + Signals(p.wire);
    RaiseStep(p, value);
    assert UnderWay(p) == keep + Cached(p.dev.unread, p.dev.latest);
    assert UnderWay(Next(p, Raise(value))) == keep + [Signal(|p.raised| + 1, value)];
    OrderedJoin(keep, Cached(p.dev.unread, p.dev.latest), p.raised, TakenNo(p), value);
  }

  lemma InOrderStep(p: Pipe, op: Op)
    requires Channels(p) && InOrder(p) && Enabled(p, op)
    ensures InOrder(Next(p, op))
  {
    hide Next, UnderWay, Channels, Ordered;
    if op.Raise? {
      InOrderRaise(p, op.value);
    } else {
      UnderWayStep(p, op);
      if UnderWay(p) != [] {
        OrderedRest(UnderWay(p), p.raised, TakenNo(p));
      }
    }
  }

  /** The IOCTLs that the operation completes. */
  function Added(p: Pipe, op: Op): seq<H.Completion<Signal>>
    requires Enabled(p, op)
  {
    match op
    case Arrive => H.Step(p.host, ReaderOp(p.wire[0]), NOTHING).1
    case Ask(waiter) => H.Step(p.host, H.GetMessage(waiter), NOTHING).1
    case CancelAsk(k) => H.Step(p.host, H.CancelAt(k), NOTHING).1
    case _ => []
  }

  /** What the operation adds to the log: one signal at most, the one it takes, and
      that one exactly when somebody receives it. */
  lemma LogStep(p: Pipe, op: Op)
    requires Channels(p) && Enabled(p, op)
    ensures var p', out := Next(p, op), Added(p, op);
            && p'.log == p.log + out
            && (forall i | 0 <= i < |out| :: out[i].Done? ==> Receives(p, op) && out[i].value == p'.taken.value.signal)
            && (Receives(p, op) ==> p'.taken.Some? && exists i | 0 <= i < |out| :: out[i].Done?)
  {
    var out := Added(p, op);
    if Receives(p, op) {
      if op.Ask? {
        assert out[0].Done?;
      } else {
        var i :| 0 <= i < |p.host.waiting| && HasRoom(p.host.waiting[i]);
        assert out[i].Done?;
      }
    }
  }

  lemma {:induction false} NothingReceived(log: seq<H.Completion<Signal>>, out: seq<H.Completion<Signal>>)
    requires forall i | 0 <= i < |out| :: !out[i].Done?
    ensures ReceivedNo(log + out) == ReceivedNo(log)
  {
    if out == [] {
      assert log + out == log;
    } else {
      NothingReceived(log, out[..|out| - 1]);
      assert (log + out)[..|log + out| - 1] == log + out[..|out| - 1];
    }
  }

  lemma {:induction false} SomethingReceived(log: seq<H.Completion<Signal>>, out: seq<H.Completion<Signal>>, no: nat)
    requires forall i | 0 <= i < |out| :: out[i].Done? ==> out[i].value.no == no
    requires exists i | 0 <= i < |out| :: out[i].Done?
    ensures ReceivedNo(log + out) == no
  {
    var i, front := |out| - 1, out[..|out| - 1];
    assert (log + out)[..|log + out| - 1] == log + front;
    if !out[i].Done? {
      var j :| 0 <= j < |out| && out[j].Done?;
      assert front[j].Done?;
      SomethingReceived(log, front, no);
    }
  }

  lemma ReceivedStep(p: Pipe, op: Op)
    requires Channels(p) && Enabled(p, op)
    ensures ReceivedNo(Next(p, op).log) ==
            if Receives(p, op) then TakenNo(Next(p, op)) else ReceivedNo(p.log)
  {
    LogStep(p, op);
    if Receives(p, op) {
      SomethingReceived(p.log, Added(p, op), TakenNo(Next(p, op)));
    } else {
      NothingReceived(p.log, Added(p, op));
    }
  }

  lemma {:induction false} ReceivedIsOld(log: seq<H.Completion<Signal>>, newest: nat)
    requires forall i | 0 <= i < |log| :: log[i].Done? ==> log[i].value.no <= newest
    ensures ReceivedNo(log) <= newest
  {
    if log != [] {
      ReceivedIsOld(log[..|log| - 1], newest);
    }
  }

  /** A signal taken is genuine, and newer than the one taken before. */
  lemma TakesNewer(p: Pipe, op: Op)
    requires Good(p) && Enabled(p, op)
    ensures var p' := Next(p, op);
            if Takes(p, op) then
              && p'.taken.Some? && TakenNo(p) < TakenNo(p') <= |p.raised|
              && Genuine(p'.taken.value.signal, p.raised)
            else p'.taken == p.taken
  {
    if !op.Raise? {
      UnderWayStep(p, op);
    }
  }

  lemma LogJoin(log: seq<H.Completion<Signal>>, out: seq<H.Completion<Signal>>,
                raised: seq<uint32>, more: seq<uint32>, newest: nat, newest': nat)
    requires LogInOrder(log, raised, newest) && newest <= newest'
    requires forall i | 0 <= i < |out| :: out[i].Done? ==> Genuine(out[i].value, raised) && out[i].value.no == newest'
    ensures LogInOrder(log + out, raised + more, newest')
  {
  }

  lemma ObservedStep(p: Pipe, op: Op)
    requires Good(p) && Enabled(p, op)
    ensures Observed(Next(p, op))
  {
    hide Next, Channels, LogInOrder, Ordered, Added, Receives;
    var raised := if op.Raise? then [op.value] else [];
    LogStep(p, op);
    TakesNewer(p, op);
    RaisedStep(p, op);
    LogJoin(p.log, Added(p, op), p.raised, raised, TakenNo(p), TakenNo(Next(p, op)));
  }

  lemma GoodStep(p: Pipe, op: Op)
    requires Good(p) && Enabled(p, op)
    ensures Good(Next(p, op))
  {
    ChannelsStep(p, op);
    InOrderStep(p, op);
    ObservedStep(p, op);
  }

  /** Bus operations leave the waiting IOCTLs alone, except that anything reaching
      the reader completes them all. */
  lemma WaitingStep(p: Pipe, op: Op)
    requires Channels(p) && Enabled(p, op) && !op.Ask? && !op.CancelAsk?
    ensures Next(p, op).host.accepting == p.host.accepting
    ensures Next(p, op).host.waiting == if op.Arrive? then [] else p.host.waiting
    ensures op.Arrive? && p.wire[0].Done? ==> (Takes(p, op) <==> p.host.waiting != [])
    ensures !op.Raise? ==> Next(p, op).raised == p.raised
  {
  }

  /** The IOCTL that waits alone is completed by whatever reaches the reader. */
  lemma ArriveAnswers(p: Pipe, w: H.Waiter)
    requires Channels(p) && p.wire != [] && p.host.waiting == [w] && HasRoom(w)
    ensures var c, out := p.wire[0], Added(p, Arrive);
            if c.Done? then
              out == [H.Done(w, STATUS_SUCCESS, c.value)] && Next(p, Arrive).taken == Some(Taken(w, c.value))
            else out == [H.Failed(w, c.status, 0)]
  {
    var c := p.wire[0];
    assert H.Broadcast([w], ReaderOp(c).status, ReaderOp(c).value) ==
           [H.Complete(w, ReaderOp(c).status, ReaderOp(c).value)];
  }

  lemma NobodyAnswered(p: Pipe, op: Op)
    requires Enabled(p, op) && !op.Ask? && !op.CancelAsk? && (op.Arrive? ==> p.host.waiting == [])
    ensures Added(p, op) == []
  {
  }

  lemma AskAnswers(p: Pipe, w: H.Waiter)
    requires Channels(p) && p.host.accepting && HasRoom(w)
    ensures var out := Added(p, Ask(w));
            if Takes(p, Ask(w)) then
              && out == [H.Done(w, STATUS_SUCCESS, p.host.latest)]
              && Next(p, Ask(w)).taken == Some(Taken(w, p.host.latest))
            else out == []
  {
  }

  /** An IOCTL takes the signal in the mailbox, or joins the waiting ones. */
  lemma AskStep(p: Pipe, w: H.Waiter)
    requires Channels(p) && p.host.accepting
    ensures Next(p, Ask(w)).host.accepting && Next(p, Ask(w)).raised == p.raised
    ensures if Takes(p, Ask(w)) then Next(p, Ask(w)).host.waiting == p.host.waiting == []
            else Next(p, Ask(w)).host.waiting == p.host.waiting + [w]
  {
  }

  ghost predicate CanRun(p: Pipe, ops: seq<Op>)
    decreases |ops|
  {
    ops == [] || (Enabled(p, ops[0]) && CanRun(Next(p, ops[0]), ops[1..]))
  }

  ghost function Exec(p: Pipe, ops: seq<Op>): Pipe
    requires CanRun(p, ops)
    decreases |ops|
  {
    if ops == [] then p else Exec(Next(p, ops[0]), ops[1..])
  }

  /** In every run of atomic operations, whatever fails, the waiters observe raise
      order.  (DeviceLatchSteps.OrderInverted: a raise and a submission that overlap on
      the device can break it.) */
  lemma {:induction false} RaiseOrderObserved(p: Pipe, ops: seq<Op>)
    requires Good(p) && CanRun(p, ops)
    ensures Good(Exec(p, ops))
    decreases |ops|
  {
    if ops != [] {
      GoodStep(p, ops[0]);
      RaiseOrderObserved(Next(p, ops[0]), ops[1..]);
    }
  }

  /** The signal that the operation takes out of the pipeline without anybody
      receiving it: erased by a failure, or taken by IOCTLs that all lack room. */
  function Dropped(p: Pipe, op: Op): Option<Signal> {
    if Erasing(p, op) then Some(p.host.latest)
    else if !Takes(p, op) || Receives(p, op) then None
    else if op.Ask? then Some(p.host.latest)
    else Some(p.wire[0].value)
  }

  /** It drops the freshest signal. */
  predicate Loses(p: Pipe, op: Op) {
    Dropped(p, op).Some? && Dropped(p, op).value.no == |p.raised|
  }

  lemma DropsFirst(p: Pipe, op: Op)
    requires Channels(p) && Enabled(p, op) && (Erasing(p, op) || Takes(p, op))
    ensures UnderWay(p) != []
    ensures Dropped(p, op).Some? ==> Dropped(p, op).value == UnderWay(p)[0]
  {
  }

  lemma KeptStep(ss: seq<Signal>, ss': seq<Signal>, raised: seq<uint32>, taken: nat, received: nat, received': nat,
                 drops: bool)
    requires Ordered(ss, raised, taken) && received <= taken
    requires if drops then ss != [] && ss' == ss[1..] && received' == received
             else || (received' == received && (ss' == ss || (|ss| > 1 && ss' == ss[1..])))
                  || (ss != [] && received' == ss[0].no && ss' == ss[1..])
    ensures Kept(ss', |raised|, received') <==>
            Kept(ss, |raised|, received) && !(drops && ss[0].no == |raised|)
  {
  }

  lemma FreshestRaise(p: Pipe, value: uint32)
    requires Channels(p)
    ensures FreshestKept(Next(p, Raise(value)))
  {
    RaiseStep(p, value);
    var ss' := UnderWay(Next(p, Raise(value)));
    assert ss'[|ss'| - 1] == Signal(|p.raised| + 1, value);
  }

  /** The freshest signal stays kept until an operation drops it, erased or taken
      without room while nothing newer is under way; and once dropped it stays lost
      until the next raise. */
  lemma FreshestLostExactly(p: Pipe, op: Op)
    requires Good(p) && Enabled(p, op)
    ensures FreshestKept(Next(p, op)) <==> op.Raise? || (FreshestKept(p) && !Loses(p, op))
  {
    hide Next, UnderWay, Channels, Ordered, ReceivedNo, Kept;
    if op.Raise? {
      FreshestRaise(p, op.value);
    } else {
      UnderWayStep(p, op);
      RaisedStep(p, op);
      ReceivedStep(p, op);
      ReceivedIsOld(p.log, TakenNo(p));
      if Erasing(p, op) || Takes(p, op) {
        DropsFirst(p, op);
      }
      KeptStep(UnderWay(p), UnderWay(Next(p, op)), p.raised, TakenNo(p),
               ReceivedNo(p.log), ReceivedNo(Next(p, op).log), Dropped(p, op).Some?);
    }
  }

  /** Whether the freshest signal is kept after ops, told from the drops alone. */
  ghost predicate KeptBy(p: Pipe, ops: seq<Op>, kept: bool)
    requires CanRun(p, ops)
    decreases |ops|
  {
    if ops == [] then kept
    else KeptBy(Next(p, ops[0]), ops[1..], ops[0].Raise? || (kept && !Loses(p, ops[0])))
  }

  /** Over every run: the freshest signal has been received, or is cached on the
      host, in flight or cached on the device, if and only if no operation since the
      last raise dropped it. */
  lemma {:induction false} FreshestInRun(p: Pipe, ops: seq<Op>)
    requires Good(p) && CanRun(p, ops)
    ensures FreshestKept(Exec(p, ops)) <==> KeptBy(p, ops, FreshestKept(p))
    decreases |ops|
  {
    if ops != [] {
      GoodStep(p, ops[0]);
      FreshestLostExactly(p, ops[0]);
      FreshestInRun(Next(p, ops[0]), ops[1..]);
    }
  }

  /** A reader error other than a cancellation. */
  predicate ReaderError(p: Pipe, op: Op) {
    op.Arrive? && p.wire != [] && p.wire[0].Failed? && p.wire[0].status != STATUS_CANCELLED
  }

  ghost predicate NoReaderError(p: Pipe, ops: seq<Op>)
    requires CanRun(p, ops)
    decreases |ops|
  {
    ops == [] || (!ReaderError(p, ops[0]) && NoReaderError(Next(p, ops[0]), ops[1..]))
  }

  ghost predicate AllHaveRoom(ws: seq<H.Waiter>) {
    forall i | 0 <= i < |ws| :: HasRoom(ws[i])
  }

  /** Every IOCTL brings room for the flags. */
  ghost predicate RoomyAsks(ops: seq<Op>) {
    forall i | 0 <= i < |ops| :: ops[i].Ask? ==> HasRoom(ops[i].waiter)
  }

  lemma RoomStep(p: Pipe, op: Op)
    requires AllHaveRoom(p.host.waiting) && (op.Ask? ==> HasRoom(op.waiter)) && Enabled(p, op)
    ensures AllHaveRoom(Next(p, op).host.waiting)
    ensures Takes(p, op) ==> Receives(p, op)
  {
    if op.Arrive? && p.host.waiting != [] {
      assert HasRoom(p.host.waiting[0]);
    }
  }

  /** With no reader error other than cancellation, and room for the flags in every
      IOCTL, the last value raised is never lost: it has been received, or it is
      cached on the host, in flight, or cached on the device. */
  lemma {:induction false} FreshestNeverLost(p: Pipe, ops: seq<Op>)
    requires Good(p) && FreshestKept(p) && AllHaveRoom(p.host.waiting)
    requires CanRun(p, ops) && NoReaderError(p, ops) && RoomyAsks(ops)
    ensures FreshestKept(Exec(p, ops)) && Good(Exec(p, ops))
    decreases |ops|
  {
    if ops != [] {
      GoodStep(p, ops[0]);
      RoomStep(p, ops[0]);
      FreshestLostExactly(p, ops[0]);
      FreshestNeverLost(Next(p, ops[0]), ops[1..]);
    }
  }

  /** A reader URB is submitted to a sleeping device that has nothing cached. */
  predicate SubmittedAsleep(p: Pipe, op: Op) {
    op.Submit? && !p.dev.accepting && p.dev.unread == 0
  }

  ghost predicate NeverSubmittedAsleep(p: Pipe, ops: seq<Op>)
    requires CanRun(p, ops)
    decreases |ops|
  {
    ops == [] || (!SubmittedAsleep(p, ops[0]) && NeverSubmittedAsleep(Next(p, ops[0]), ops[1..]))
  }

  ghost predicate OnlyCancellations(p: Pipe) {
    forall i | 0 <= i < |p.wire| :: p.wire[i].Failed? ==> p.wire[i].status == STATUS_CANCELLED
  }

  /** That submission is the device's only source of such errors. */
  lemma OnlySourceOfErrors(p: Pipe, op: Op)
    requires Channels(p) && OnlyCancellations(p) && Enabled(p, op)
    ensures OnlyCancellations(Next(p, op)) <==> !SubmittedAsleep(p, op)
    ensures !ReaderError(p, op)
  {
    if SubmittedAsleep(p, op) {
      var wire := Next(p, op).wire;
      assert wire[|wire| - 1] == D.Failed(op.urb, STATUS_WDF_BUSY);
    }
  }

  lemma {:induction false} ErrorFreeRun(p: Pipe, ops: seq<Op>)
    requires Channels(p) && OnlyCancellations(p) && CanRun(p, ops) && NeverSubmittedAsleep(p, ops)
    ensures NoReaderError(p, ops)
    decreases |ops|
  {
    if ops != [] {
      ChannelsStep(p, ops[0]);
      OnlySourceOfErrors(p, ops[0]);
      ErrorFreeRun(Next(p, ops[0]), ops[1..]);
    }
  }

  lemma InitGood()
    ensures Good(INIT) && FreshestKept(INIT) && OnlyCancellations(INIT) && AllHaveRoom(INIT.host.waiting)
  {
  }

  // ----- Both ways of losing the freshest value happen

  lemma {:induction false} ExecAppend(p: Pipe, ops: seq<Op>, last: Op)
    requires CanRun(p, ops) && Enabled(Exec(p, ops), last)
    ensures CanRun(p, ops + [last]) && Exec(p, ops + [last]) == Next(Exec(p, ops), last)
    ensures NoReaderError(p, ops) && !ReaderError(Exec(p, ops), last) ==> NoReaderError(p, ops + [last])
    decreases |ops|
  {
    if ops == [] {
      assert [last][1..] == [];
    } else {
      ExecAppend(Next(p, ops[0]), ops[1..], last);
      assert (ops + [last])[1..] == ops[1..] + [last];
    }
  }

  const URB := D.Urb(0, Some(D.FLAGS_SIZE))

  /** A value raised while the reader's URB waits reaches the host's mailbox. */
  lemma Delivered(value: uint32) returns (ops: seq<Op>)
    ensures CanRun(INIT, ops) && NoReaderError(INIT, ops)
    ensures Exec(INIT, ops) == INIT.(raised := [value], host := INIT.host.(latest := Signal(1, value), unread := 1))
  {
    ops := [];
    ExecAppend(INIT, ops, Submit(URB));
    ops := ops + [Submit(URB)];
    ExecAppend(INIT, ops, Raise(value));
    ops := ops + [Raise(value)];
    assert Exec(INIT, ops).wire == [D.Done(URB, Signal(1, value))];
    ExecAppend(INIT, ops, Arrive);
    ops := ops + [Arrive];
  }

  /** An IOCTL without room empties the mailbox and receives nothing. */
  lemma ShortBufferSwallows(value: uint32) returns (ops: seq<Op>)
    ensures CanRun(INIT, ops) && NoReaderError(INIT, ops)
    ensures var p := Exec(INIT, ops);
            && p.raised == [value] && UnderWay(p) == [] && !FreshestKept(p)
            && p.log == [H.Failed(H.Waiter(7, 0), STATUS_BUFFER_TOO_SMALL, H.FLAGS_SIZE)]
  {
    ops := Delivered(value);
    ExecAppend(INIT, ops, Ask(H.Waiter(7, 0)));
    ops := ops + [Ask(H.Waiter(7, 0))];
    var p := Exec(INIT, ops);
    assert p.log == [H.Failed(H.Waiter(7, 0), STATUS_BUFFER_TOO_SMALL, H.FLAGS_SIZE)];
    NothingReceived([], p.log);
    assert [] + p.log == p.log;
  }

  /** The reader's URB submitted to a sleeping device fails, and its failure erases
      the mailbox. */
  lemma FailureErases(value: uint32) returns (ops: seq<Op>)
    ensures CanRun(INIT, ops)
    ensures var p := Exec(INIT, ops);
            p.raised == [value] && UnderWay(p) == [] && !FreshestKept(p) && p.log == []
  {
    ops := Delivered(value);
    ExecAppend(INIT, ops, Sleep);
    ops := ops + [Sleep];
    ExecAppend(INIT, ops, Submit(URB));
    ops := ops + [Submit(URB)];
    assert Exec(INIT, ops).wire == [D.Failed(URB, STATUS_WDF_BUSY)];
    ExecAppend(INIT, ops, Arrive);
    ops := ops + [Arrive];
  }

  // ----- Single operations, as the programs meet them

  /** The reader's URB submitted to the sleeping device fails the IOCTL that waits. */
  lemma SleepFailsIoctl(w: H.Waiter) returns (p1: Pipe, p2: Pipe, p3: Pipe)
    requires HasRoom(w)
    ensures p1 == Next(INIT, Sleep) && p2 == Next(p1, Ask(w)) && p3 == Next(p2, Submit(URB))
    ensures Added(INIT, Sleep) == [] && Added(p1, Ask(w)) == [] && Added(p2, Submit(URB)) == []
    ensures Enabled(p3, Arrive) && Added(p3, Arrive) == [H.Failed(w, STATUS_WDF_BUSY, 0)]
  {
    p1 := Next(INIT, Sleep);
    p2 := Next(p1, Ask(w));
    p3 := Next(p2, Submit(URB));
    assert p3.wire == [D.Failed(URB, STATUS_WDF_BUSY)] && p3.host.waiting == [w];
    ArriveAnswers(p3, w);
  }

  lemma RaisedIsUnderWay(p: Pipe, value: uint32)
    requires Channels(p)
    ensures UnderWay(Next(p, Raise(value))) != []
    ensures Next(p, Raise(value)).host == p.host
    ensures p.wire != [] ==> Next(p, Raise(value)).wire != [] && Next(p, Raise(value)).wire[0] == p.wire[0]
    ensures p.wire == [] && Next(p, Raise(value)).wire != [] ==> Next(p, Raise(value)).wire[0].Done?
  {
    RaiseStep(p, value);
  }

  /** Signals under way are newer than the last one taken, so with every signal but one
      taken that one is under way or has been dropped. */
  lemma SignalsAfterTaken(p: Pipe)
    requires Good(p)
    ensures |p.raised| <= TakenNo(p) ==> UnderWay(p) == []
    ensures |p.raised| == TakenNo(p) + 1 ==> (UnderWay(p) != [] <==> FreshestKept(p))
  {
    ReceivedIsOld(p.log, TakenNo(p));
    if UnderWay(p) != [] {
      assert Genuine(UnderWay(p)[0], p.raised) && TakenNo(p) < UnderWay(p)[0].no;
      assert Genuine(UnderWay(p)[|UnderWay(p)| - 1], p.raised) && TakenNo(p) < UnderWay(p)[|UnderWay(p)| - 1].no;
    }
  }

  /** A URB fetches what the device has cached. */
  lemma SubmitSends(p: Pipe)
    requires Channels(p) && p.dev.unread > 0
    ensures Enabled(p, Submit(URB))
    ensures var p' := Next(p, Submit(URB));
            && UnderWay(p') == UnderWay(p) && p'.dev.unread == 0
            && (p.wire != [] ==> p'.wire != [] && p'.wire[0] == p.wire[0])
            && (p.wire == [] ==> p'.wire != [] && p'.wire[0].Done?)
  {
    DeviceStep(p, Submit(URB));
  }

  /** A completed URB reaches the reader while the host holds nothing. */
  lemma ArriveReaches(p: Pipe)
    requires Channels(p) && p.host.unread == 0 && p.wire != []
    ensures var p' := Next(p, Arrive);
            && p'.dev == p.dev && p'.wire == p.wire[1..]
            && (p.wire[0].Failed? || p.host.waiting == [] ==> UnderWay(p') == UnderWay(p))
  {
    if p.wire[0].Done? {
      ArriveDone(p);
    } else {
      ArriveFailed(p);
    }
  }

  // ----- The numbers change nothing: without them, these are the steps of the drivers

  function BareDevice(l: D.Latch<Signal>): D.Latch<uint32> {
    D.Latch(l.latest.value, l.unread, l.deferred, l.accepting, l.awake)
  }

  function BareDeviceOp(op: D.Op<Signal>): D.Op<uint32> {
    match op
    case Raise(signal) => D.Raise(signal.value)
    case Submit(urb) => D.Submit(urb)
    case CancelAt(k) => D.CancelAt(k)
    case Sleep => D.Sleep
    case Wake => D.Wake
  }

  function BareUrb(c: D.Completion<Signal>): D.Completion<uint32> {
    match c
    case Done(urb, signal) => D.Done(urb, signal.value)
    case Failed(urb, status) => D.Failed(urb, status)
  }

  function BareUrbs(cs: seq<D.Completion<Signal>>): (r: seq<D.Completion<uint32>>)
    ensures |r| == |cs| && forall i | 0 <= i < |r| :: r[i] == BareUrb(cs[i])
  {
    seq(|cs|, i requires 0 <= i < |cs| => BareUrb(cs[i]))
  }

  lemma DeviceWithoutNumbers(l: D.Latch<Signal>, op: D.Op<Signal>)
    ensures var (l', out) := D.Step(l, op, NOTHING);
            D.Step(BareDevice(l), BareDeviceOp(op), 0) == (BareDevice(l'), BareUrbs(out))
  {
    var (_, out) := D.Step(l, op, NOTHING);
    assert BareUrbs(out) == D.Step(BareDevice(l), BareDeviceOp(op), 0).1;
  }

  function BareHost(l: H.Latch<Signal>): H.Latch<uint32> {
    H.Latch(l.latest.value, l.unread, l.waiting, l.accepting)
  }

  function BareHostOp(op: H.Op<Signal>): H.Op<uint32> {
    match op
    case GetMessage(waiter) => H.GetMessage(waiter)
    case ReaderDone(status, signal) => H.ReaderDone(status, signal.value)
    case CancelAt(k) => H.CancelAt(k)
  }

  function BareIoctl(c: H.Completion<Signal>): H.Completion<uint32> {
    match c
    case Done(waiter, status, signal) => H.Done(waiter, status, signal.value)
    case Failed(waiter, status, information) => H.Failed(waiter, status, information)
  }

  function BareIoctls(cs: seq<H.Completion<Signal>>): (r: seq<H.Completion<uint32>>)
    ensures |r| == |cs| && forall i | 0 <= i < |r| :: r[i] == BareIoctl(cs[i])
  {
    seq(|cs|, i requires 0 <= i < |cs| => BareIoctl(cs[i]))
  }

  lemma HostWithoutNumbers(l: H.Latch<Signal>, op: H.Op<Signal>)
    ensures var (l', out) := H.Step(l, op, NOTHING);
            H.Step(BareHost(l), BareHostOp(op), 0) == (BareHost(l'), BareIoctls(out))
  {
    var (_, out) := H.Step(l, op, NOTHING);
    assert BareIoctls(out) == H.Step(BareHost(l), BareHostOp(op), 0).1;
  }
}
