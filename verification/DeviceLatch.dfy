/** The device end of the interrupt path (UDEFX2/USBCom.c): one coalescing
    mailbox, the interrupt URBs deferred until there is something to report, and
    the link power callbacks that purge and restart that queue. */
module DeviceLatch {
  import opened Counting
  import opened Wdf

  const MAX_CACHED_UPDATES: nat := 100
  const FLAGS_SIZE: nat := 4

  /** An interrupt IN URB; length is None when its buffer cannot be retrieved. */
  datatype Urb = Urb(id: nat, length: Option<nat>)

  datatype Completion<V> = Done(urb: Urb, value: V) | Failed(urb: Urb, status: NtStatus)

  /** deferred and accepting describe IntrDeferredQueue. */
  datatype Latch<V> = Latch(latest: V, unread: nat, deferred: seq<Urb>, accepting: bool, awake: bool)

  function Init<V>(zero: V): Latch<V> {
    Latch(zero, 0, [], true, true)
  }

  predicate Readable(u: Urb) {
    u.length == Some(FLAGS_SIZE)
  }

  /** IoCompletePendingRequest */
  function Complete<V>(u: Urb, value: V): Completion<V> {
    if u.length == None then Failed(u, OtherError(0))
    else if u.length != Some(FLAGS_SIZE) then Failed(u, STATUS_INVALID_BLOCK_LENGTH)
    else Done(u, value)
  }

  function Cancelled<V>(us: seq<Urb>): (r: seq<Completion<V>>)
    ensures |r| == |us|
    ensures forall i | 0 <= i < |r| :: r[i] == Failed(us[i], STATUS_CANCELLED)
  {
    seq(|us|, i requires 0 <= i < |us| => Failed(us[i], STATUS_CANCELLED))
  }

  datatype Op<V> = Raise(value: V) | Submit(urb: Urb) | CancelAt(k: nat) | Sleep | Wake

  /** The whole effect of one operation: the new state and the URBs completed.  A
      cancellation of something that is not parked has no effect. */
  function Step<V>(l: Latch<V>, op: Op<V>, zero: V): (Latch<V>, seq<Completion<V>>) {
    match op
    case Raise(value) =>
      if l.deferred != [] then
        (l.(deferred := l.deferred[1..]), [Complete(l.deferred[0], value)])
      else
        (l.(latest := value, unread := Min(l.unread + 1, MAX_CACHED_UPDATES)), [])
    case Submit(urb) =>
      var l' := l.(latest := zero, unread := 0);
      if l.unread > 0 then (l', [Complete(urb, l.latest)])
      else if l.accepting then (l'.(deferred := l.deferred + [urb]), [])
      else (l', [Failed(urb, STATUS_WDF_BUSY)])
    case CancelAt(k) =>
      if k < |l.deferred| then
        (l.(deferred := l.deferred[..k] + l.deferred[k + 1..]), [Failed(l.deferred[k], STATUS_CANCELLED)])
      else (l, [])
    case Sleep => (l.(awake := false, accepting := false, deferred := []), Cancelled(l.deferred))
    case Wake => (l.(awake := true, accepting := true), [])
  }

  // ----- Every run

  /** The latch with its history: cached lists the values cached since the last
      URB asked, oldest first. */
  datatype System<V> = System(latch: Latch<V>, cached: seq<V>, out: seq<Completion<V>>)

  function Advance<V>(s: System<V>, op: Op<V>, zero: V): System<V> {
    var (l, out) := Step(s.latch, op, zero);
    var cached :=
      if op.Raise? && s.latch.deferred == [] then s.cached + [op.value]
      else if op.Submit? then []
      else s.cached;
    System(l, cached, s.out + out)
  }

  function Run<V>(ops: seq<Op<V>>, zero: V): System<V> {
    if ops == [] then System(Init(zero), [], [])
    else Advance(Run(ops[..|ops| - 1], zero), ops[|ops| - 1], zero)
  }

  ghost predicate Sound<V>(l: Latch<V>) {
    && l.awake == l.accepting
    && (!l.awake ==> l.deferred == [])
    && (l.unread > 0 ==> l.deferred == [])
  }

  lemma SoundStep<V>(l: Latch<V>, op: Op<V>, zero: V)
    requires Sound(l)
    ensures Sound(Step(l, op, zero).0)
  {
  }

  /** The counter and the mailbox against the history. */
  ghost predicate Counted<V>(s: System<V>, zero: V) {
    && s.latch.unread == Min(|s.cached|, MAX_CACHED_UPDATES)
    && s.latch.latest == (if s.cached == [] then zero else s.cached[|s.cached| - 1])
  }

  lemma CountedStep<V>(s: System<V>, op: Op<V>, zero: V)
    requires Counted(s, zero) && Sound(s.latch)
    ensures Counted(Advance(s, op, zero), zero)
  {
  }

  /** In every atomic run: nothing is deferred while asleep or while data is
      cached, the counter is the number of values cached since the last URB asked
      saturated at 100, and latestStatus is the last of them, or 0. */
  lemma {:induction false} LatchInvariant<V>(ops: seq<Op<V>>, zero: V)
    ensures var s := Run(ops, zero);
            && Sound(s.latch)
            && s.latch.unread == Min(|s.cached|, MAX_CACHED_UPDATES)
            && s.latch.latest == (if s.cached == [] then zero else s.cached[|s.cached| - 1])
  {
    if ops != [] {
      var front, last := ops[..|ops| - 1], ops[|ops| - 1];
      LatchInvariant(front, zero);
      SoundStep(Run(front, zero).latch, last, zero);
      CountedStep(Run(front, zero), last, zero);
    }
  }

  // ----- Where the URBs go

  /** The URBs that ops submit, in order. */
  function Submitted<V>(ops: seq<Op<V>>): seq<Urb> {
    if ops == [] then []
    else Submitted(ops[..|ops| - 1]) + (if ops[|ops| - 1].Submit? then [ops[|ops| - 1].urb] else [])
  }

  function Urbs<V>(cs: seq<Completion<V>>): (r: seq<Urb>)
    ensures |r| == |cs|
    ensures forall i | 0 <= i < |r| :: r[i] == cs[i].urb
  {
    seq(|cs|, i requires 0 <= i < |cs| => cs[i].urb)
  }

  lemma UrbsConcat<V>(a: seq<Completion<V>>, b: seq<Completion<V>>, urb: Urb)
    ensures Count(Urbs(a + b), urb) == Count(Urbs(a), urb) + Count(Urbs(b), urb)
  {
    assert Urbs(a + b) == Urbs(a) + Urbs(b);
    CountConcat(Urbs(a), Urbs(b), urb);
  }

  lemma CountOne<T>(x: T, y: T)
    ensures Count([x], y) == if x == y then 1 else 0
  {
    assert [x][..0] == [];
  }

  /** How often urb is deferred or among those completed. */
  function Uses<V>(l: Latch<V>, out: seq<Completion<V>>, urb: Urb): nat {
    Count(l.deferred, urb) + Count(Urbs(out), urb)
  }

  lemma CancelledUrbs<V>(us: seq<Urb>, out: seq<Completion<V>>)
    requires out == Cancelled(us)
    ensures Urbs(out) == us
  {
  }

  lemma CompleteUrb<V>(u: Urb, value: V)
    ensures Complete(u, value).urb == u
  {
  }

  /** The first of the deferred URBs, or the k-th, is completed. */
  lemma TakeConserves<V>(l: Latch<V>, k: nat, c: Completion<V>, urb: Urb)
    requires k < |l.deferred| && c.urb == l.deferred[k]
    ensures var l' := l.(deferred := l.deferred[..k] + l.deferred[k + 1..]);
            Uses(l', [c], urb) == Count(l.deferred, urb)
    ensures k == 0 ==> l.deferred[..k] + l.deferred[k + 1..] == l.deferred[1..]
  {
    CountTakeAt(l.deferred, k, urb);
    OneUrb(c, urb);
  }

  lemma OneUrb<V>(c: Completion<V>, urb: Urb)
    ensures Count(Urbs([c]), urb) == if c.urb == urb then 1 else 0
  {
    assert Urbs([c]) == [c.urb];
    CountOne(c.urb, urb);
  }

  lemma StepConserves<V>(l: Latch<V>, op: Op<V>, zero: V, urb: Urb)
    ensures var (l', out) := Step(l, op, zero);
            Uses(l', out, urb) == Count(l.deferred, urb) + if op == Submit(urb) then 1 else 0
  {
    hide Complete;
    match op
    case Raise(value) =>
      if l.deferred != [] {
        CompleteUrb(l.deferred[0], value);
        TakeConserves(l, 0, Complete(l.deferred[0], value), urb);
      }
    case Submit(u) =>
      CompleteUrb(u, l.latest);
      OneUrb(Complete(u, l.latest), urb);
      var busy: Completion<V> := Failed(u, STATUS_WDF_BUSY);
      OneUrb(busy, urb);
      CountAppend(l.deferred, u, urb);
    case CancelAt(k) =>
      if k < |l.deferred| {
        TakeConserves(l, k, Failed(l.deferred[k], STATUS_CANCELLED), urb);
      }
    case Sleep => CancelledUrbs(l.deferred, Cancelled<V>(l.deferred));
    case Wake =>
  }

  /** In every atomic run, through sleeps, wakes and cancellations, each URB submitted
      is exactly once deferred or completed, and no other URB is. */
  lemma {:induction false} Conservation<V>(ops: seq<Op<V>>, zero: V, urb: Urb)
    ensures Uses(Run(ops, zero).latch, Run(ops, zero).out, urb) == Count(Submitted(ops), urb)
  {
    hide Step, Urbs;
    if ops != [] {
      var front, last := ops[..|ops| - 1], ops[|ops| - 1];
      var s := Run(front, zero);
      Conservation(front, zero, urb);
      StepConserves(s.latch, last, zero, urb);
      UrbsConcat(s.out, Step(s.latch, last, zero).1, urb);
      if last.Submit? {
        CountAppend(Submitted(front), last.urb, urb);
      } else {
        assert Submitted(front) + [] == Submitted(front);
      }
    }
  }

  /** A URB takes a value exactly when its buffer has the 4 bytes of one; otherwise it
      fails, with the error of retrieving the buffer if there is one. */
  lemma CarriesFourBytes<V>(urb: Urb, value: V)
    ensures Complete(urb, value) ==
            match urb.length
            case None => Failed(urb, OtherError(0))
            case Some(n) => if n == 4 then Done(urb, value) else Failed(urb, STATUS_INVALID_BLOCK_LENGTH)
  {
  }

  lemma RunOne<V>(ops: seq<Op<V>>, last: Op<V>, zero: V)
    ensures Run(ops + [last], zero) == Advance(Run(ops, zero), last, zero)
    ensures |ops| == 0 ==> ops + [last] == [last]
    ensures |ops| == 1 ==> ops + [last] == [ops[0], last]
  {
    hide Step;
    assert (ops + [last])[..|ops|] == ops;
  }

  /** So a raise reaches the reader's 4-byte URB, whichever comes first. */
  lemma RaiseReachesUrb(value: uint32)
    ensures var urb := Urb(7, Some(4));
            && Run([Raise(value), Submit(urb)], 0).out == [Done(urb, value)]
            && Run([Submit(urb), Raise(value)], 0).out == [Done(urb, value)]
  {
    var urb := Urb(7, Some(4));
    var raise: Op<uint32>, submit: Op<uint32> := Raise(value), Submit(urb);
    var s0 := Run<uint32>([], 0);
    RunOne([], raise, 0);
    RunOne([], submit, 0);
    RunOne([raise], submit, 0);
    RunOne([submit], raise, 0);
    assert Advance(s0, raise, 0) == Run([raise], 0) && Advance(s0, submit, 0) == Run([submit], 0);
  }

  // ----- Where a cached value goes

  function Outputs<V>(l: Latch<V>, ops: seq<Op<V>>, zero: V): seq<Completion<V>>
    decreases |ops|
  {
    if ops == [] then []
    else var (l', out) := Step(l, ops[0], zero); out + Outputs(l', ops[1..], zero)
  }

  function After<V>(l: Latch<V>, ops: seq<Op<V>>, zero: V): Latch<V>
    decreases |ops|
  {
    if ops == [] then l else After(Step(l, ops[0], zero).0, ops[1..], zero)
  }

  lemma {:induction false} OutputsConcat<V>(l: Latch<V>, a: seq<Op<V>>, b: seq<Op<V>>, zero: V)
    ensures After(l, a + b, zero) == After(After(l, a, zero), b, zero)
    ensures Outputs(l, a + b, zero) == Outputs(l, a, zero) + Outputs(After(l, a, zero), b, zero)
    decreases |a|
  {
    hide Step;
    if a == [] {
      assert a + b == b;
    } else {
      var (l', out) := Step(l, a[0], zero);
      OutputsConcat(l', a[1..], b, zero);
      assert (a + b)[0] == a[0] && (a + b)[1..] == a[1..] + b;
      Reassociate(out, Outputs(l', a[1..], zero), Outputs(After(l, a, zero), b, zero));
    }
  }

  /** Neither raises nor URBs: only sleeps, wakes and cancellations. */
  predicate Idle<V>(ops: seq<Op<V>>) {
    forall i | 0 <= i < |ops| :: !ops[i].Raise? && !ops[i].Submit?
  }

  /** A cached value stays cached as long as no URB asks and nothing is raised, and
      the rest of the state does not depend on it. */
  lemma {:induction false} StaysCached<V>(l: Latch<V>, latest: V, unread: nat, before: seq<Op<V>>, zero: V)
    requires l.deferred == [] && Idle(before)
    ensures Outputs(l, before, zero) == []
    ensures After(l.(latest := latest, unread := unread), before, zero) ==
            After(l, before, zero).(latest := latest, unread := unread)
    ensures After(l, before, zero).latest == l.latest && After(l, before, zero).unread == l.unread
    decreases |before|
  {
    if before != [] {
      StaysCached(Step(l, before[0], zero).0, latest, unread, before[1..], zero);
    }
  }

  /** The latch once the next URB has asked, with before between. */
  function Emptied<V>(l: Latch<V>, before: seq<Op<V>>, zero: V): Latch<V> {
    After(l, before, zero).(latest := zero, unread := 0)
  }

  /** A cached value goes to the next URB submitted, across any sleeps, wakes and
      cancellations, and to no other: what happens afterwards starts from a latch that
      does not remember it. */
  lemma CachedValueGoesToNextUrb<V>(l: Latch<V>, before: seq<Op<V>>, urb: Urb, after: seq<Op<V>>, zero: V)
    requires Sound(l) && l.unread > 0 && Idle(before)
    ensures Outputs(l, before + [Submit(urb)] + after, zero) ==
            [Complete(urb, l.latest)] + Outputs(Emptied(l, before, zero), after, zero)
  {
    var asks: seq<Op<V>> := [Submit(urb)];
    StaysCached(l, l.latest, l.unread, before, zero);
    OutputsConcat(l, before + asks, after, zero);
    OutputsConcat(l, before, asks, zero);
    var l' := After(l, before, zero);
    assert asks[1..] == [];
    assert Outputs(l', asks, zero) == [Complete(urb, l.latest)];
    assert After(l', asks, zero) == Emptied(l, before, zero);
  }

  /** Of two values raised while asleep, with nothing raised before the first URB
      afterwards and anything after it, the host can tell one from the other exactly
      when that URB has a 4-byte buffer: it is the only completion that differs. */
  lemma RaisedAsleep<V>(l: Latch<V>, value: V, other: V, before: seq<Op<V>>, urb: Urb, after: seq<Op<V>>, zero: V)
    requires Sound(l) && !l.awake && Idle(before)
    ensures var ops := before + [Submit(urb)] + after;
            var out := Outputs(Step(l, Raise(value), zero).0, ops, zero);
            var out' := Outputs(Step(l, Raise(other), zero).0, ops, zero);
            var rest := Outputs(Emptied(l, before, zero), after, zero);
            && out == [Complete(urb, value)] + rest && out' == [Complete(urb, other)] + rest
            && (out == out' <==> value == other || !Readable(urb))
  {
    var ops := before + [Submit(urb)] + after;
    var rest := Outputs(Emptied(l, before, zero), after, zero);
    var l1, l2 := Step(l, Raise(value), zero).0, Step(l, Raise(other), zero).0;
    CachedValueGoesToNextUrb(l1, before, urb, after, zero);
    CachedValueGoesToNextUrb(l2, before, urb, after, zero);
    StaysCached(l, value, l1.unread, before, zero);
    StaysCached(l, other, l2.unread, before, zero);
    assert ([Complete(urb, value)] + rest)[0] == Complete(urb, value);
    assert ([Complete(urb, other)] + rest)[0] == Complete(urb, other);
  }

  /** So an unreadable URB swallows it, and a readable one behind it only waits. */
  lemma UnreadableUrbSwallows(value: uint32)
    ensures var bad, good := Urb(0, Some(2)), Urb(1, Some(4));
            var l := Step(Step(Init(0 as uint32), Sleep, 0).0, Raise(value), 0).0;
            var ops := [Wake, Submit(bad), Submit(good)];
            && Outputs(l, ops, 0) == [Failed(bad, STATUS_INVALID_BLOCK_LENGTH)]
            && After(l, ops, 0).deferred == [good]
  {
    var bad, good := Urb(0, Some(2)), Urb(1, Some(4));
    var l := Step(Step(Init(0 as uint32), Sleep, 0).0, Raise(value), 0).0;
    var ops: seq<Op<uint32>> := [Wake, Submit(bad), Submit(good)];
    assert ops[1..] == [Submit(bad), Submit(good)] && ops[1..][1..] == [Submit(good)];
    var l1 := Step(l, Wake, 0).0;
    var l2 := Step(l1, Submit(bad), 0).0;
    assert Outputs(l2, [Submit(good)], 0) == [];
    assert After(l2, [Submit(good)], 0).deferred == [good];
  }

  // ----- The driver's data

  /** IO_CONTEXT and the IsAwake flag of USB_CONTEXT; completed lists the URBs
      given back to the host so far. */
  class Device {
    var latestStatus: uint32
    var numUnreadUpdates: uint32
    const intrDeferred: ManualQueue<Urb>
    var isAwake: bool
    var completed: seq<Completion<uint32>>
    var wakeSignals: nat

    ghost predicate Valid()
      reads this, intrDeferred
    {
      intrDeferred.Valid() && Sound(Abs()) && numUnreadUpdates <= 100
    }

    ghost function Abs(): Latch<uint32>
      reads this, intrDeferred
    {
      Latch(latestStatus, numUnreadUpdates as nat, intrDeferred.items, intrDeferred.accepting, isAwake)
    }

    /** Io_CreateDeferredIntrQueue; the device starts out awake. */
    constructor ()
      ensures Valid() && Abs() == Init(0) && completed == [] && fresh(intrDeferred)
    {
      latestStatus, numUnreadUpdates, isAwake, completed, wakeSignals := 0, 0, true, [], 0;
      intrDeferred := new ManualQueue();
    }

    /** IoCompletePendingRequest */
    method CompletePendingRequest(request: Urb, latest: uint32)
      modifies this`completed
      ensures completed == old(completed) + [Complete(request, latest)]
      ensures request.length == Some(4) ==> completed == old(completed) + [Done(request, latest)]
      ensures request.length == None ==> completed == old(completed) + [Failed(request, OtherError(0))]
      ensures request.length.Some? && request.length.value != 4 ==>
                completed == old(completed) + [Failed(request, STATUS_INVALID_BLOCK_LENGTH)]
    {
      if request.length == None {
        completed := completed + [Failed(request, OtherError(0))];
      } else if request.length != Some(FLAGS_SIZE) {
        completed := completed + [Failed(request, STATUS_INVALID_BLOCK_LENGTH)];
      } else {
        completed := completed + [Done(request, latest)];
      }
    }

    /** Io_RaiseInterrupt: the host is asked to wake the device exactly when the
        value is cached. */
    method RaiseInterrupt(latest: uint32) returns (status: NtStatus)
      requires Valid()
      modifies this, intrDeferred`items
      ensures Valid() && status == STATUS_SUCCESS
      ensures Abs() == Step(old(Abs()), Raise(latest), 0).0
      ensures completed == old(completed) + Step(old(Abs()), Raise(latest), 0).1
      ensures wakeSignals == old(wakeSignals) + if old(intrDeferred.items) == [] then 1 else 0
      ensures old(intrDeferred.items) == [] ==>
                && latestStatus == latest && numUnreadUpdates as nat == Min(old(numUnreadUpdates) as nat + 1, 100)
                && intrDeferred.items == [] && completed == old(completed)
      ensures old(intrDeferred.items) != [] ==>
                && latestStatus == old(latestStatus) && numUnreadUpdates == old(numUnreadUpdates)
                && intrDeferred.items == old(intrDeferred.items)[1..]
                && completed == old(completed) + [Complete(old(intrDeferred.items)[0], latest)]
    {
      var request;
      status, request := intrDeferred.Retrieve();
      if !NtSuccess(status) {
        latestStatus := latest;
        if numUnreadUpdates < 100 {
          numUnreadUpdates := numUnreadUpdates + 1;
        }
        wakeSignals := wakeSignals + 1;
        status := STATUS_SUCCESS;
      } else {
        CompletePendingRequest(request.value, latest);
      }
    }

    /** IoEvtInterruptInUrb; a control code other than submit-URB is dropped. */
    method InterruptInUrb(request: Urb, submitUrb: bool)
      requires Valid()
      modifies this, intrDeferred`items
      ensures Valid()
      ensures submitUrb ==>
                && Abs() == Step(old(Abs()), Submit(request), 0).0
                && completed == old(completed) + Step(old(Abs()), Submit(request), 0).1
      ensures !submitUrb ==> Abs() == old(Abs()) && completed == old(completed)
      ensures submitUrb ==> latestStatus == 0 && numUnreadUpdates == 0
      ensures submitUrb && old(numUnreadUpdates) > 0 ==>
                && completed == old(completed) + [Complete(request, old(latestStatus))]
                && intrDeferred.items == old(intrDeferred.items)
      ensures submitUrb && old(numUnreadUpdates) == 0 && intrDeferred.accepting ==>
                completed == old(completed) && intrDeferred.items == old(intrDeferred.items) + [request]
      ensures submitUrb && old(numUnreadUpdates) == 0 && !intrDeferred.accepting ==>
                && completed == old(completed) + [Failed(request, STATUS_WDF_BUSY)]
                && intrDeferred.items == old(intrDeferred.items)
    {
      if !submitUrb {
        return;
      }
      var hasData, latest := false, 0;
      if numUnreadUpdates > 0 {
        hasData, latest := true, latestStatus;
      }
      latestStatus, numUnreadUpdates := 0, 0;
      if hasData {
        CompletePendingRequest(request, latest);
      } else {
        var status := intrDeferred.Forward(request);
        if !NtSuccess(status) {
          completed := completed + [Failed(request, status)];
        }
      }
    }

    /** The framework takes a deferred URB off the queue and calls
        IoEvtCancelInterruptInUrb. */
    method CancelInterruptInUrb(request: Urb, k: nat)
      requires Valid() && k < |intrDeferred.items| && intrDeferred.items[k] == request
      modifies this`completed, intrDeferred`items
      ensures Valid()
      ensures Abs() == Step(old(Abs()), CancelAt(k), 0).0
      ensures completed == old(completed) + Step(old(Abs()), CancelAt(k), 0).1
      ensures completed == old(completed) + [Failed(request, STATUS_CANCELLED)]
      ensures intrDeferred.items == old(intrDeferred.items)[..k] + old(intrDeferred.items)[k + 1..]
    {
      intrDeferred.items := intrDeferred.items[..k] + intrDeferred.items[k + 1..];
      completed := completed + [Failed(request, STATUS_CANCELLED)];
    }

    /** UsbDevice_EvtUsbDeviceLinkPowerExit and Io_DeviceSlept: every deferred URB is
        completed once, in order, by the cancel callback that the purge calls. */
    method LinkPowerExit()
      requires Valid()
      modifies this, intrDeferred
      ensures Valid()
      ensures Abs() == Step(old(Abs()), Sleep, 0).0
      ensures completed == old(completed) + Step(old(Abs()), Sleep, 0).1
      ensures !isAwake && !intrDeferred.accepting && intrDeferred.items == []
      ensures latestStatus == old(latestStatus) && numUnreadUpdates == old(numUnreadUpdates)
      ensures old(completed) <= completed && |completed| == |old(completed)| + |old(intrDeferred.items)|
      ensures forall i | 0 <= i < |old(intrDeferred.items)| ::
                completed[|old(completed)| + i] == Failed(old(intrDeferred.items)[i], STATUS_CANCELLED)
    {
      hide Complete;
      isAwake := false;
      var cancelled := intrDeferred.Purge();
      completed := completed + Cancelled(cancelled);
    }

    /** UsbDevice_EvtUsbDeviceLinkPowerEntry and Io_DeviceWokeUp */
    method LinkPowerEntry()
      requires Valid()
      modifies this, intrDeferred
      ensures Valid() && completed == old(completed)
      ensures Abs() == Step(old(Abs()), Wake, 0).0
      ensures isAwake && intrDeferred.accepting && intrDeferred.items == old(intrDeferred.items)
      ensures latestStatus == old(latestStatus) && numUnreadUpdates == old(numUnreadUpdates)
    {
      intrDeferred.Start();
      isAwake := true;
    }

    /** IOCTL_UDEFX2_GENERATE_INTERRUPT in BackChannelIoctl; input is None when the
        buffer cannot be retrieved, which includes one shorter than the flags.  value is
        the one raised: its base-256 digits are the bytes of the input, lowest first. */
    method GenerateInterrupt(input: Option<Bytes>) returns (status: NtStatus, value: uint32)
      requires Valid() && (input.Some? ==> |input.value| >= 4)
      modifies this, intrDeferred`items
      ensures Valid()
      ensures input.Some? && |input.value| == 4 ==>
                && status == STATUS_SUCCESS
                && Abs() == Step(old(Abs()), Raise(value), 0).0
                && completed == old(completed) + Step(old(Abs()), Raise(value), 0).1
                && value as int % 0x100 == input.value[0] as int
                && value as int / 0x100 % 0x100 == input.value[1] as int
                && value as int / 0x1_0000 % 0x100 == input.value[2] as int
                && value as int / 0x100_0000 == input.value[3] as int
      ensures input == None || |input.value| != 4 ==>
                !NtSuccess(status) && Abs() == old(Abs()) && completed == old(completed)
      ensures input.Some? && |input.value| != 4 ==> status == STATUS_INVALID_PARAMETER
    {
      value := 0;
      if input == None {
        status := STATUS_BUFFER_TOO_SMALL;
      } else if |input.value| == FLAGS_SIZE {
        value := LittleEndian(input.value);
        DigitsOf(input.value);
        status := RaiseInterrupt(value);
      } else {
        status := STATUS_INVALID_PARAMETER;
      }
    }
  }

  // ----- A ULONG in memory

  function LittleEndian(b: Bytes): uint32
    requires |b| == FLAGS_SIZE
  {
    (b[0] as int + 0x100 * (b[1] as int) + 0x1_0000 * (b[2] as int) + 0x100_0000 * (b[3] as int)) as uint32
  }

  /** The four bytes of a value. */
  function InMemory(value: uint32): (b: Bytes)
    ensures |b| == 4
  {
    [(value as int % 0x100) as byte, (value as int / 0x100 % 0x100) as byte,
     (value as int / 0x1_0000 % 0x100) as byte, (value as int / 0x100_0000) as byte]
  }

  /** The bytes are the digits of the value, lowest first. */
  lemma DigitsOf(b: Bytes)
    requires |b| == 4
    ensures var v := LittleEndian(b) as int;
            && v % 0x100 == b[0] as int && v / 0x100 % 0x100 == b[1] as int
            && v / 0x1_0000 % 0x100 == b[2] as int && v / 0x100_0000 == b[3] as int
  {
    var b0, b1, b2, b3 := b[0] as int, b[1] as int, b[2] as int, b[3] as int;
    var v := LittleEndian(b) as int;
    assert v == b0 + 0x100 * (b1 + 0x100 * (b2 + 0x100 * b3));
    assert v / 0x100 == b1 + 0x100 * (b2 + 0x100 * b3);
    assert v / 0x1_0000 == b2 + 0x100 * b3;
    assert v / 0x100_0000 == b3;
  }

  /** Every four bytes round-trip through the value, and every value through its four
      bytes. */
  lemma BytesRoundTrip(b: Bytes)
    requires |b| == 4
    ensures InMemory(LittleEndian(b)) == b
  {
    hide LittleEndian;
    DigitsOf(b);
  }

  lemma ValueRoundTrip(value: uint32)
    ensures LittleEndian(InMemory(value)) == value
  {
    var v := value as int;
    assert v == v % 0x100 + 0x100 * (v / 0x100);
    assert v / 0x100 == v / 0x100 % 0x100 + 0x100 * (v / 0x1_0000);
    assert v / 0x1_0000 == v / 0x1_0000 % 0x100 + 0x100 * (v / 0x100_0000);
  }
}
