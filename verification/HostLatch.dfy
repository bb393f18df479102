/** The host end of the interrupt path (UDEFX_host/driver/ioctl.c and
    interrupt.c): a coalescing mailbox in front of the IOCTLs that wait for an
    interrupt, all of which are completed by the next one. */
module HostLatch {
  import opened Counting
  import opened Wdf

  const MAX_CACHED_UPDATES: nat := 100
  const FLAGS_SIZE: nat := 4

  /** A GET_INTERRUPT_MESSAGE request with the length of its output buffer. */
  datatype Waiter = Waiter(id: nat, room: nat)

  datatype Completion<V> =
    | Done(waiter: Waiter, status: NtStatus, value: V)
    | Failed(waiter: Waiter, status: NtStatus, information: nat)

  /** waiting and accepting describe InterruptMsgQueue. */
  datatype Latch<V> = Latch(latest: V, unread: nat, waiting: seq<Waiter>, accepting: bool)

  function Init<V>(zero: V): Latch<V> {
    Latch(zero, 0, [], true)
  }

  /** OsrCompleteInterruptRequest */
  function Complete<V>(w: Waiter, readerStatus: NtStatus, value: V): Completion<V> {
    if w.room < FLAGS_SIZE then Failed(w, STATUS_BUFFER_TOO_SMALL, FLAGS_SIZE)
    else if NtSuccess(readerStatus) then Done(w, readerStatus, value)
    else Failed(w, readerStatus, 0)
  }

  /** A waiter without the 4 bytes of a value fails for that reason, whatever the reader
      says, and is told how many it needs; any other gets what the reader has. */
  lemma AnswersFourBytes<V>(w: Waiter, readerStatus: NtStatus, value: V)
    ensures w.room < 4 ==> Complete(w, readerStatus, value) == Failed(w, STATUS_BUFFER_TOO_SMALL, 4)
    ensures w.room >= 4 && NtSuccess(readerStatus) ==>
              Complete(w, readerStatus, value) == Done(w, readerStatus, value)
    ensures w.room >= 4 && !NtSuccess(readerStatus) ==>
              Complete(w, readerStatus, value) == Failed(w, readerStatus, 0)
  {
  }

  /** One completion for each waiter, all with the same status and value. */
  function Broadcast<V>(ws: seq<Waiter>, readerStatus: NtStatus, value: V): (r: seq<Completion<V>>)
    ensures |r| == |ws|
    ensures forall i | 0 <= i < |r| :: r[i] == Complete(ws[i], readerStatus, value)
  {
    seq(|ws|, i requires 0 <= i < |ws| => Complete(ws[i], readerStatus, value))
  }

  lemma BroadcastAppend<V>(ws: seq<Waiter>, w: Waiter, readerStatus: NtStatus, value: V)
    ensures Broadcast(ws + [w], readerStatus, value) ==
            Broadcast(ws, readerStatus, value) + [Complete(w, readerStatus, value)]
  {
  }

  /** The waiter retrieved, if there is one. */
  function Held(o: Option<Waiter>): seq<Waiter> {
    if o.Some? then [o.value] else []
  }

  datatype Op<V> =
    | GetMessage(waiter: Waiter)
    | ReaderDone(status: NtStatus, value: V)
    | CancelAt(k: nat)

  function Step<V>(l: Latch<V>, op: Op<V>, zero: V): (Latch<V>, seq<Completion<V>>) {
    match op
    case GetMessage(waiter) =>
      if l.unread > 0 then
        (l.(latest := zero, unread := 0), [Complete(waiter, STATUS_SUCCESS, l.latest)])
      else if l.accepting then (l.(waiting := l.waiting + [waiter]), [])
      else (l, [Failed(waiter, STATUS_WDF_BUSY, 0)])
    case ReaderDone(status, value) =>
      var l' :=
        if NtSuccess(status) then
          if l.waiting != [] then l.(latest := zero, unread := 0)
          else l.(latest := value, unread := Min(l.unread + 1, MAX_CACHED_UPDATES))
        else if status != STATUS_CANCELLED then l.(latest := zero, unread := 0)
        else l;
      (l'.(waiting := []), Broadcast(l.waiting, status, value))
    case CancelAt(k) =>
      if k < |l.waiting| then
        (l.(waiting := l.waiting[..k] + l.waiting[k + 1..]), [Failed(l.waiting[k], STATUS_CANCELLED, 0)])
      else (l, [])
  }

  /** The latch with its history: cached lists the values cached since the mailbox
      was last emptied. */
  datatype System<V> = System(latch: Latch<V>, cached: seq<V>, out: seq<Completion<V>>)

  function Advance<V>(s: System<V>, op: Op<V>, zero: V): System<V> {
    var (l, out) := Step(s.latch, op, zero);
    var cached :=
      match op
      case GetMessage(_) => []
      case ReaderDone(status, value) =>
        if NtSuccess(status) then (if s.latch.waiting == [] then s.cached + [value] else [])
        else if status == STATUS_CANCELLED then s.cached
        else []
      case _ => s.cached;
    System(l, cached, s.out + out)
  }

  function Run<V>(ops: seq<Op<V>>, zero: V): System<V> {
    if ops == [] then System(Init(zero), [], [])
    else Advance(Run(ops[..|ops| - 1], zero), ops[|ops| - 1], zero)
  }

  ghost predicate Sound<V>(l: Latch<V>, zero: V) {
    && l.unread <= MAX_CACHED_UPDATES
    && (l.unread > 0 ==> l.waiting == [])
    && (l.unread == 0 ==> l.latest == zero)
    && (!l.accepting ==> l.waiting == [])
  }

  lemma SoundStep<V>(l: Latch<V>, op: Op<V>, zero: V)
    requires Sound(l, zero)
    ensures Sound(Step(l, op, zero).0, zero)
  {
  }

  /** The counter and the mailbox against the history. */
  ghost predicate Counted<V>(s: System<V>, zero: V) {
    && s.latch.unread == Min(|s.cached|, MAX_CACHED_UPDATES)
    && s.latch.latest == (if s.cached == [] then zero else s.cached[|s.cached| - 1])
  }

  lemma CountedStep<V>(s: System<V>, op: Op<V>, zero: V)
    requires Counted(s, zero) && Sound(s.latch, zero)
    ensures Counted(Advance(s, op, zero), zero)
  {
  }

  /** In every atomic run, through successes, errors and cancellations: nobody
      waits while data is cached, the counter is the number of values cached since
      the mailbox was emptied saturated at 100, and latestStatus is the last of
      them, or 0. */
  lemma {:induction false} LatchInvariant<V>(ops: seq<Op<V>>, zero: V)
    ensures var s := Run(ops, zero);
            && Sound(s.latch, zero)
            && s.latch.unread == Min(|s.cached|, MAX_CACHED_UPDATES)
            && s.latch.latest == (if s.cached == [] then zero else s.cached[|s.cached| - 1])
  {
    if ops != [] {
      var front, last := ops[..|ops| - 1], ops[|ops| - 1];
      LatchInvariant(front, zero);
      SoundStep(Run(front, zero).latch, last, zero);
      CountedStep(Run(front, zero), last, zero);
    }
  }

  // ----- Where the IOCTLs go

  function Asked<V>(ops: seq<Op<V>>): seq<Waiter> {
    if ops == [] then []
    else Asked(ops[..|ops| - 1]) + (if ops[|ops| - 1].GetMessage? then [ops[|ops| - 1].waiter] else [])
  }

  function Waiters<V>(cs: seq<Completion<V>>): (r: seq<Waiter>)
    ensures |r| == |cs|
    ensures forall i | 0 <= i < |r| :: r[i] == cs[i].waiter
  {
    seq(|cs|, i requires 0 <= i < |cs| => cs[i].waiter)
  }

  /** How often w is parked or among those completed. */
  function Uses<V>(l: Latch<V>, out: seq<Completion<V>>, w: Waiter): nat {
    Count(l.waiting, w) + Count(Waiters(out), w)
  }

  lemma OneWaiter<V>(c: Completion<V>, w: Waiter)
    ensures Count(Waiters([c]), w) == if c.waiter == w then 1 else 0
  {
    assert Waiters([c]) == [] + [c.waiter];
    CountAppend([], c.waiter, w);
  }

  lemma StepConserves<V>(l: Latch<V>, op: Op<V>, zero: V, w: Waiter)
    ensures var (l', out) := Step(l, op, zero);
            Uses(l', out, w) == Count(l.waiting, w) + if op == GetMessage(w) then 1 else 0
  {
    match op
    case GetMessage(x) =>
      OneWaiter(Complete(x, STATUS_SUCCESS, l.latest), w);
      var busy: Completion<V> := Failed(x, STATUS_WDF_BUSY, 0);
      OneWaiter(busy, w);
      CountAppend(l.waiting, x, w);
    case ReaderDone(status, value) => assert Waiters(Broadcast(l.waiting, status, value)) == l.waiting;
    case CancelAt(k) =>
      if k < |l.waiting| {
        var cancelled: Completion<V> := Failed(l.waiting[k], STATUS_CANCELLED, 0);
        CountTakeAt(l.waiting, k, w);
        OneWaiter(cancelled, w);
      }
  }

  /** In every atomic run each IOCTL is exactly once parked or completed, and no other
      one is. */
  lemma {:induction false} Conservation<V>(ops: seq<Op<V>>, zero: V, w: Waiter)
    ensures Uses(Run(ops, zero).latch, Run(ops, zero).out, w) == Count(Asked(ops), w)
  {
    hide Step, Waiters;
    if ops != [] {
      var front, last := ops[..|ops| - 1], ops[|ops| - 1];
      var s := Run(front, zero);
      Conservation(front, zero, w);
      StepConserves(s.latch, last, zero, w);
      WaitersConcat(s.out, Step(s.latch, last, zero).1, w);
      if last.GetMessage? {
        CountAppend(Asked(front), last.waiter, w);
      } else {
        assert Asked(front) + [] == Asked(front);
      }
    }
  }

  lemma WaitersConcat<V>(a: seq<Completion<V>>, b: seq<Completion<V>>, w: Waiter)
    ensures Count(Waiters(a + b), w) == Count(Waiters(a), w) + Count(Waiters(b), w)
  {
    assert Waiters(a + b) == Waiters(a) + Waiters(b);
    CountConcat(Waiters(a), Waiters(b), w);
  }

  /** A cancellation completes the waiter it names, and leaves all others in their
      order and the mailbox as it was. */
  lemma CancelOnlyRemoves<V>(l: Latch<V>, k: nat, zero: V)
    requires k < |l.waiting|
    ensures var (l', out) := Step(l, CancelAt(k), zero);
            && out == [Failed(l.waiting[k], STATUS_CANCELLED, 0)] && |l'.waiting| == |l.waiting| - 1
            && (forall i | 0 <= i < k :: l'.waiting[i] == l.waiting[i])
            && (forall i | k <= i < |l'.waiting| :: l'.waiting[i] == l.waiting[i + 1])
            && l'.unread == l.unread && l'.latest == l.latest
  {
  }

  // ----- The driver's data

  /** DEVICE_CONTEXT; completed lists the IOCTLs completed so far. */
  class Host {
    var latestStatus: uint32
    var numUnreadUpdates: uint32
    const interruptMsg: ManualQueue<Waiter>
    var completed: seq<Completion<uint32>>

    ghost predicate Valid()
      reads this, interruptMsg
    {
      interruptMsg.Valid() && Sound(Abs(), 0)
    }

    ghost function Abs(): Latch<uint32>
      reads this, interruptMsg
    {
      Latch(latestStatus, numUnreadUpdates as nat, interruptMsg.items, interruptMsg.accepting)
    }

    constructor ()
      ensures Valid() && Abs() == Init(0) && completed == [] && fresh(interruptMsg)
    {
      latestStatus, numUnreadUpdates, completed := 0, 0, [];
      interruptMsg := new ManualQueue();
    }

    /** OsrCompleteInterruptRequest */
    method CompleteInterruptRequest(request: Waiter, readerStatus: NtStatus, flags: uint32)
      modifies this`completed
      ensures completed == old(completed) + [Complete(request, readerStatus, flags)]
      ensures request.room < 4 ==> completed == old(completed) + [Failed(request, STATUS_BUFFER_TOO_SMALL, 4)]
      ensures request.room >= 4 && NtSuccess(readerStatus) ==>
                completed == old(completed) + [Done(request, readerStatus, flags)]
      ensures request.room >= 4 && !NtSuccess(readerStatus) ==>
                completed == old(completed) + [Failed(request, readerStatus, 0)]
    {
      var status := if request.room < FLAGS_SIZE then STATUS_BUFFER_TOO_SMALL else STATUS_SUCCESS;
      var bytesReturned := 0;
      var filled := false;
      if !NtSuccess(status) {
        bytesReturned := FLAGS_SIZE;
      } else if NtSuccess(readerStatus) {
        filled, bytesReturned := true, FLAGS_SIZE;
      }
      var final := if NtSuccess(status) then readerStatus else status;
      completed := completed +
        [if filled then Done(request, final, flags) else Failed(request, final, bytesReturned)];
    }

    /** The GET_INTERRUPT_MESSAGE case of OsrFxEvtIoDeviceControl */
    method GetInterruptMessage(request: Waiter)
      requires Valid()
      modifies this, interruptMsg`items
      ensures Valid()
      ensures Abs() == Step(old(Abs()), GetMessage(request), 0).0
      ensures completed == old(completed) + Step(old(Abs()), GetMessage(request), 0).1
      ensures old(numUnreadUpdates) > 0 ==>
                && latestStatus == 0 && numUnreadUpdates == 0 && interruptMsg.items == old(interruptMsg.items)
                && completed == old(completed) + [Complete(request, STATUS_SUCCESS, old(latestStatus))]
      ensures old(numUnreadUpdates) == 0 ==> latestStatus == old(latestStatus) && numUnreadUpdates == 0
      ensures old(numUnreadUpdates) == 0 && interruptMsg.accepting ==>
                completed == old(completed) && interruptMsg.items == old(interruptMsg.items) + [request]
      ensures old(numUnreadUpdates) == 0 && !interruptMsg.accepting ==>
                && completed == old(completed) + [Failed(request, STATUS_WDF_BUSY, 0)]
                && interruptMsg.items == old(interruptMsg.items)
    {
      var dataReady, newData := false, 0;
      if numUnreadUpdates > 0 {
        dataReady, newData := true, latestStatus;
        numUnreadUpdates, latestStatus := 0, 0;
      }
      if dataReady {
        CompleteInterruptRequest(request, STATUS_SUCCESS, newData);
      } else {
        var status := interruptMsg.Forward(request);
        if !NtSuccess(status) {
          completed := completed + [Failed(request, status, 0)];
        }
      }
    }

    /** The lock section of OsrUsbIoctlGetInterruptMessage; found says whether a
        waiter was retrieved before it. */
    method UpdateStatus(readerStatus: NtStatus, found: bool, newFlags: uint32)
      requires numUnreadUpdates <= 100
      modifies this`latestStatus, this`numUnreadUpdates
      ensures NtSuccess(readerStatus) && !found ==>
                latestStatus == newFlags && numUnreadUpdates as nat == Min(old(numUnreadUpdates) as nat + 1, 100)
      ensures (NtSuccess(readerStatus) && found) || (!NtSuccess(readerStatus) && readerStatus != STATUS_CANCELLED) ==>
                latestStatus == 0 && numUnreadUpdates == 0
      ensures readerStatus == STATUS_CANCELLED ==>
                latestStatus == old(latestStatus) && numUnreadUpdates == old(numUnreadUpdates)
    {
      if NtSuccess(readerStatus) {
        if found {
          latestStatus, numUnreadUpdates := 0, 0;
        } else {
          latestStatus := newFlags;
          if numUnreadUpdates < 100 {
            numUnreadUpdates := numUnreadUpdates + 1;
          }
        }
      } else if readerStatus != STATUS_CANCELLED {
        latestStatus, numUnreadUpdates := 0, 0;
      }
    }

    /** Its loop, entered with the outcome of the first retrieve: it empties the queue,
        completing every waiter once and in order. */
    method Drain(first: Option<Waiter>, readerStatus: NtStatus, newFlags: uint32)
      requires interruptMsg.Valid() && (first == None ==> interruptMsg.items == [])
      modifies this`completed, interruptMsg`items
      ensures interruptMsg.Valid() && interruptMsg.items == []
      ensures completed == old(completed) + Broadcast(Held(first) + old(interruptMsg.items), readerStatus, newFlags)
    {
      ghost var ws, done := Held(first) + interruptMsg.items, [];
      var request := first;
      var status := if first.Some? then STATUS_SUCCESS else STATUS_NO_MORE_ENTRIES;
      while NtSuccess(status)
        invariant interruptMsg.Valid() && (NtSuccess(status) <==> request.Some?)
        invariant request == None ==> interruptMsg.items == []
        invariant done + Held(request) + interruptMsg.items == ws
        invariant completed == old(completed) + Broadcast(done, readerStatus, newFlags)
        decreases |interruptMsg.items| + |Held(request)|
      {
        BroadcastAppend(done, request.value, readerStatus, newFlags);
        done := done + [request.value];
        CompleteInterruptRequest(request.value, readerStatus, newFlags);
        status, request := interruptMsg.Retrieve();
      }
      // so the empty `while (status == STATUS_SUCCESS)' behind it never iterates
      assert status != STATUS_SUCCESS;
    }

    /** OsrUsbIoctlGetInterruptMessage */
    method HandleReaderCompletion(readerStatus: NtStatus, newFlags: uint32)
      requires Valid()
      modifies this, interruptMsg`items
      ensures Valid()
      ensures Abs() == Step(old(Abs()), ReaderDone(readerStatus, newFlags), 0).0
      ensures completed == old(completed) + Step(old(Abs()), ReaderDone(readerStatus, newFlags), 0).1
      ensures interruptMsg.items == []
      ensures |completed| == |old(completed)| + |old(interruptMsg.items)| && old(completed) <= completed
      ensures forall i | 0 <= i < |old(interruptMsg.items)| ::
                completed[|old(completed)| + i] == Complete(old(interruptMsg.items)[i], readerStatus, newFlags)
      ensures NtSuccess(readerStatus) && old(interruptMsg.items) == [] ==>
                latestStatus == newFlags && numUnreadUpdates as nat == Min(old(numUnreadUpdates) as nat + 1, 100)
      ensures NtSuccess(readerStatus) && old(interruptMsg.items) != [] ==> latestStatus == 0 && numUnreadUpdates == 0
      ensures !NtSuccess(readerStatus) && readerStatus != STATUS_CANCELLED ==>
                latestStatus == 0 && numUnreadUpdates == 0
      ensures readerStatus == STATUS_CANCELLED ==>
                latestStatus == old(latestStatus) && numUnreadUpdates == old(numUnreadUpdates)
    {
      ghost var ws := interruptMsg.items;
      var status, request := interruptMsg.Retrieve();
      UpdateStatus(readerStatus, NtSuccess(status), newFlags);
      Drain(request, readerStatus, newFlags);
      assert ws == Held(request) + ws[|Held(request)|..];
    }

    /** OsrFxEvtUsbInterruptPipeReadComplete; flags are the first bytes of the reader's
        buffer, whatever the length of the transfer. */
    method InterruptPipeReadComplete(numBytesTransferred: nat, flags: uint32)
      requires Valid()
      modifies this, interruptMsg`items
      ensures Valid()
      ensures numBytesTransferred == 0 ==> Abs() == old(Abs()) && completed == old(completed)
      ensures numBytesTransferred > 0 ==>
                && Abs() == Step(old(Abs()), ReaderDone(STATUS_SUCCESS, flags), 0).0
                && completed == old(completed) + Step(old(Abs()), ReaderDone(STATUS_SUCCESS, flags), 0).1
    {
      if numBytesTransferred == 0 {
        return;
      }
      HandleReaderCompletion(STATUS_SUCCESS, flags);
    }

    /** OsrFxEvtUsbInterruptReadersFailed */
    method InterruptReadersFailed(status: NtStatus) returns (restart: bool)
      requires Valid()
      modifies this, interruptMsg`items
      ensures Valid() && restart
      ensures Abs() == Step(old(Abs()), ReaderDone(status, 0), 0).0
      ensures completed == old(completed) + Step(old(Abs()), ReaderDone(status, 0), 0).1
    {
      HandleReaderCompletion(status, 0);
      restart := true;
    }
  }
}
