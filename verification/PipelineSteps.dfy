/** The interrupt path with the device at its real granularity: raises and URB
    submissions in two steps each (DeviceLatchSteps), the URBs completed on their way
    to the host's continuous reader, and the host's operations one step each
    (HostLatch).  Raised values go by their number, counted from 1. */
module PipelineSteps {
  import opened Wdf
  import D = DeviceLatch
  import H = HostLatch
  import S = DeviceLatchSteps

  datatype State = State(
    dev: S.State,
    arrived: nat,                     // how many of the URBs completed the reader has seen
    host: H.Latch<nat>,
    log: seq<H.Completion<nat>>)      // IOCTLs completed so far

  const INIT := State(S.INIT, 0, H.Init(0), [])

  datatype Step =
    | Device(step: S.Step)
    | Arrive
    | Ask(waiter: H.Waiter)
    | CancelAsk(k: nat)

  predicate Enabled(s: State, step: Step) {
    match step
    case Device(d) => S.Enabled(s.dev, d)
    case Arrive => s.arrived < |s.dev.out|
    case _ => true
  }

  /** What the reader makes of a completed URB. */
  function ReaderOp(c: S.Completion): H.Op<nat> {
    match c
    case Done(_, no) => H.ReaderDone(STATUS_SUCCESS, no)
    case Failed(_, status) => H.ReaderDone(status, 0)
  }

  function HostStep(s: State, op: H.Op<nat>): State {
    var (host, out) := H.Step(s.host, op, 0);
    s.(host := host, log := s.log + out)
  }

  function Next(s: State, step: Step): State
    requires Enabled(s, step)
  {
    match step
    case Device(d) => s.(dev := S.Next(s.dev, d))
    case Arrive => HostStep(s, ReaderOp(s.dev.out[s.arrived])).(arrived := s.arrived + 1)
    case Ask(waiter) => HostStep(s, H.GetMessage(waiter))
    case CancelAsk(k) => HostStep(s, H.CancelAt(k))
  }

  ghost predicate CanRun(s: State, steps: seq<Step>)
    decreases |steps|
  {
    steps == [] || (Enabled(s, steps[0]) && CanRun(Next(s, steps[0]), steps[1..]))
  }

  ghost function Exec(s: State, steps: seq<Step>): State
    requires CanRun(s, steps)
    decreases |steps|
  {
    if steps == [] then s else Exec(Next(s, steps[0]), steps[1..])
  }

  // ----- Where the values are

  ghost predicate Received(log: seq<H.Completion<nat>>, no: nat) {
    exists i | 0 <= i < |log| :: log[i].Done? && log[i].value == no
  }

  predicate Mailed(s: State, no: nat) { s.host.unread > 0 && s.host.latest == no }

  ghost predicate OnWire(s: State, no: nat) {
    exists i | s.arrived <= i < |s.dev.out| :: s.dev.out[i].Done? && s.dev.out[i].value == no
  }

  predicate InDevice(s: S.State, no: nat) {
    S.Mailed(s, no) || S.Served(s, no) || S.BeingRaised(s, no)
  }

  /** The value has come to the reader. */
  ghost predicate Came(s: State, no: nat) {
    exists i | 0 <= i < s.arrived <= |s.dev.out| :: s.dev.out[i].Done? && s.dev.out[i].value == no
  }

  ghost predicate Good(s: State) {
    && S.Placed(s.dev) && s.arrived <= |s.dev.out| && H.Sound(s.host, 0)
    && (forall i | 0 <= i < |s.dev.out| :: s.dev.out[i].Failed? ==> !NtSuccess(s.dev.out[i].status))
    && (s.host.unread > 0 ==> Came(s, s.host.latest) && !Received(s.log, s.host.latest))
    && (forall i | 0 <= i < |s.log| :: s.log[i].Done? ==> Came(s, s.log[i].value))
  }

  /** The newest value has been received by an IOCTL, or it is in the host's mailbox,
      in flight, or in the device. */
  ghost predicate Kept(s: State) {
    var no := |s.dev.raised|;
    no == 0 || Received(s.log, no) || Mailed(s, no) || OnWire(s, no) || InDevice(s.dev, no)
  }

  lemma CameOnce(s: State, no: nat)
    requires S.Placed(s.dev) && Came(s, no)
    ensures !OnWire(s, no) && !InDevice(s.dev, no) && 1 <= no <= |s.dev.raised|
  {
  }

  // ----- The device's steps

  lemma DeviceSends(s: State, step: S.Step, no: nat)
    requires S.Enabled(s.dev, step) && s.arrived <= |s.dev.out|
    ensures var s' := Next(s, Device(step));
            && s.dev.out <= s'.dev.out
            && (Came(s', no) <==> Came(s, no))
            && (OnWire(s', no) <==>
                  || OnWire(s, no)
                  || (step.RaiseComplete? && D.Readable(s.dev.raiser.urb) && no == |s.dev.raised|)
                  || (step.SubmitComplete? && D.Readable(s.dev.submitter.urb) && no == s.dev.submitter.no))
  {
    var s' := Next(s, Device(step));
    var out, out' := s.dev.out, s'.dev.out;
    if OnWire(s, no) {
      var i :| s.arrived <= i < |out| && out[i].Done? && out[i].value == no;
      assert out'[i] == out[i];
    }
    if step.RaiseComplete? || step.SubmitComplete? {
      assert out'[|out|] == D.Complete(if step.RaiseComplete? then s.dev.raiser.urb else s.dev.submitter.urb,
                                       if step.RaiseComplete? then |s.dev.raised| else s.dev.submitter.no);
    }
    if OnWire(s', no) && !OnWire(s, no) {
      var i :| s.arrived <= i < |out'| && out'[i].Done? && out'[i].value == no;
      assert i >= |out|;
    }
    forall i | 0 <= i < s.arrived
      ensures out'[i] == out[i]
    {
    }
  }

  lemma DeviceFails(s: S.State, step: S.Step)
    requires S.Enabled(s, step)
    ensures var out' := S.Next(s, step).out;
            s.out <= out' && forall i | |s.out| <= i < |out'| :: out'[i].Failed? ==> !NtSuccess(out'[i].status)
  {
  }

  lemma DeviceGood(s: State, step: S.Step)
    requires Good(s) && S.Enabled(s.dev, step)
    ensures Good(Next(s, Device(step)))
  {
    hide S.Next, S.Placed, S.Enabled;
    S.PlacedStep(s.dev, step);
    DeviceFails(s.dev, step);
    forall no: nat
      ensures Came(Next(s, Device(step)), no) <==> Came(s, no)
    {
      DeviceSends(s, step, no);
    }
  }

  lemma DeviceHolds(s: S.State, step: S.Step)
    requires S.Apart(s) && S.Enabled(s, step) && !step.RaiseLook?
    ensures var no := |s.raised|;
            && S.Next(s, step).raised == s.raised
            && (InDevice(S.Next(s, step), no) <==>
                  && InDevice(s, no) && !step.RaiseComplete?
                  && !(step.SubmitComplete? && s.submitter.no == no))
  {
  }

  /** The newest value survives a device step unless that spends it on a URB without a
      4-byte buffer. */
  lemma DeviceKeeps(s: State, step: S.Step)
    requires Good(s) && S.Enabled(s.dev, step)
    ensures Kept(Next(s, Device(step))) <==> step.RaiseLook? || (Kept(s) && !S.Loses(s.dev, step))
  {
    hide S.Next, S.Placed;
    var no := |s.dev.raised|;
    if step.RaiseLook? {
      RaiseKeeps(s.dev, step);
    } else {
      DeviceSends(s, step, no);
      Apart(s.dev);
      DeviceHolds(s.dev, step);
      if S.Loses(s.dev, step) {
        SpentOnce(s, step);
      }
    }
  }

  lemma RaiseKeeps(s: S.State, step: S.Step)
    requires step.RaiseLook? && S.Enabled(s, step)
    ensures InDevice(S.Next(s, step), |S.Next(s, step).raised|)
  {
  }

  lemma Apart(s: S.State)
    requires S.Placed(s)
    ensures S.Apart(s)
  {
  }

  /** What the device spends is nowhere else. */
  lemma SpentOnce(s: State, step: S.Step)
    requires Good(s) && S.Enabled(s.dev, step) && S.Loses(s.dev, step)
    ensures var no := |s.dev.raised|;
            !Received(s.log, no) && !Mailed(s, no) && !OnWire(s, no) && no > 0
  {
    var no := |s.dev.raised|;
    if Came(s, no) {
      CameOnce(s, no);
    }
  }

  // ----- The host's steps

  predicate HasRoom(w: H.Waiter) {
    w.room >= H.FLAGS_SIZE
  }

  ghost predicate SomeRoom(ws: seq<H.Waiter>) {
    exists i | 0 <= i < |ws| :: HasRoom(ws[i])
  }

  lemma ReceivedJoin(log: seq<H.Completion<nat>>, out: seq<H.Completion<nat>>, no: nat)
    ensures Received(log + out, no) <==> Received(log, no) || Received(out, no)
  {
    if Received(log, no) {
      var i :| 0 <= i < |log| && log[i].Done? && log[i].value == no;
      assert (log + out)[i] == log[i];
    }
    if Received(out, no) {
      var i :| 0 <= i < |out| && out[i].Done? && out[i].value == no;
      assert (log + out)[|log| + i] == out[i];
    }
  }

  lemma BroadcastReceived(ws: seq<H.Waiter>, status: NtStatus, value: nat, no: nat)
    ensures Received(H.Broadcast(ws, status, value), no) <==> NtSuccess(status) && no == value && SomeRoom(ws)
  {
    var out := H.Broadcast(ws, status, value);
    if NtSuccess(status) && no == value && SomeRoom(ws) {
      var i :| 0 <= i < |ws| && HasRoom(ws[i]);
      assert out[i].Done?;
    }
  }

  lemma AnswerReceived(w: H.Waiter, value: nat, no: nat)
    ensures Received([H.Complete(w, STATUS_SUCCESS, value)], no) <==> no == value && HasRoom(w)
  {
    var out := [H.Complete(w, STATUS_SUCCESS, value)];
    assert HasRoom(w) ==> out[0].Done?;
  }

  /** A completed URB reaches the reader and leaves the wire. */
  lemma ArriveWire(s: State, no: nat)
    requires Enabled(s, Arrive)
    ensures var c, s' := s.dev.out[s.arrived], Next(s, Arrive);
            && s'.dev == s.dev
            && (OnWire(s, no) <==> OnWire(s', no) || (c.Done? && c.value == no))
            && (Came(s', no) <==> Came(s, no) || (c.Done? && c.value == no))
  {
  }

  /** What it does at the host. */
  lemma ArriveHost(s: State, no: nat)
    requires Enabled(s, Arrive) && H.Sound(s.host, 0)
    requires s.dev.out[s.arrived].Failed? ==> !NtSuccess(s.dev.out[s.arrived].status)
    ensures var c, s' := s.dev.out[s.arrived], Next(s, Arrive);
            && H.Sound(s'.host, 0)
            && (Received(s'.log, no) <==>
                  Received(s.log, no) || (c.Done? && no == c.value && SomeRoom(s.host.waiting)))
            && (Mailed(s', no) <==>
                  match c
                  case Done(_, value) => s.host.waiting == [] && no == value
                  case Failed(_, status) => Mailed(s, no) && status == STATUS_CANCELLED)
  {
    var op := ReaderOp(s.dev.out[s.arrived]);
    H.SoundStep(s.host, op, 0);
    ReceivedJoin(s.log, H.Broadcast(s.host.waiting, op.status, op.value), no);
    BroadcastReceived(s.host.waiting, op.status, op.value, no);
  }

  /** An IOCTL is made, or cancelled while it waits. */
  lemma IoctlHost(s: State, step: Step, no: nat)
    requires (step.Ask? || step.CancelAsk?) && H.Sound(s.host, 0)
    ensures var s' := Next(s, step);
            && H.Sound(s'.host, 0) && s'.dev == s.dev && s'.arrived == s.arrived
            && (Received(s'.log, no) <==>
                  Received(s.log, no) || (step.Ask? && Mailed(s, no) && HasRoom(step.waiter)))
            && (Mailed(s', no) <==> Mailed(s, no) && !step.Ask?)
  {
    match step
    case Ask(waiter) =>
      H.SoundStep(s.host, H.GetMessage(waiter), 0);
      ReceivedJoin(s.log, H.Step(s.host, H.GetMessage(waiter), 0).1, no);
      AnswerReceived(waiter, s.host.latest, no);
    case CancelAsk(k) =>
      H.SoundStep(s.host, H.CancelAt(k), 0);
      ReceivedJoin(s.log, H.Step(s.host, H.CancelAt(k), 0).1, no);
  }

  /** The values received, as a set. */
  ghost predicate Honest(s: State) {
    && (s.host.unread > 0 ==> Came(s, s.host.latest) && !Received(s.log, s.host.latest))
    && (forall no: nat | Received(s.log, no) :: Came(s, no))
  }

  lemma GoodIs(s: State)
    ensures Good(s) <==>
            && S.Placed(s.dev) && s.arrived <= |s.dev.out| && H.Sound(s.host, 0) && Honest(s)
            && (forall i | 0 <= i < |s.dev.out| :: s.dev.out[i].Failed? ==> !NtSuccess(s.dev.out[i].status))
  {
    if Honest(s) {
      forall i | 0 <= i < |s.log| && s.log[i].Done?
        ensures Came(s, s.log[i].value)
      {
        assert Received(s.log, s.log[i].value);
      }
    }
  }

  lemma ArriveGood(s: State)
    requires Good(s) && Enabled(s, Arrive)
    ensures Good(Next(s, Arrive))
  {
    hide Next, Came, OnWire, Received, H.Step, H.Sound, S.Placed;
    var c, s' := s.dev.out[s.arrived], Next(s, Arrive);
    GoodIs(s);
    forall no: nat
      ensures Received(s'.log, no) ==> Came(s', no)
      ensures Mailed(s', no) ==> Came(s', no) && !Received(s'.log, no)
    {
      ArriveWire(s, no);
      ArriveHost(s, no);
      if c.Done? && c.value == no {
        Arriving(s);
      }
    }
    assert s'.host.unread > 0 ==> Mailed(s', s'.host.latest);
    ArriveCounts(s);
    GoodIs(s');
  }

  lemma ArriveCounts(s: State)
    requires Good(s) && Enabled(s, Arrive)
    ensures Next(s, Arrive).arrived == s.arrived + 1 && Next(s, Arrive).dev == s.dev && H.Sound(Next(s, Arrive).host, 0)
  {
    ArriveWire(s, 0);
    ArriveHost(s, 0);
  }

  /** The value that arrives has been nowhere else. */
  lemma Arriving(s: State)
    requires Good(s) && Enabled(s, Arrive) && s.dev.out[s.arrived].Done?
    ensures var no := s.dev.out[s.arrived].value;
            !Came(s, no) && !Received(s.log, no) && !Mailed(s, no) && !InDevice(s.dev, no) && 1 <= no <= |s.dev.raised|
  {
    var no := s.dev.out[s.arrived].value;
    assert OnWire(s, no);
    if Came(s, no) {
      CameOnce(s, no);
    }
  }

  lemma IoctlGood(s: State, step: Step)
    requires Good(s) && (step.Ask? || step.CancelAsk?)
    ensures Good(Next(s, step))
  {
    hide Next, Came, OnWire, Received, H.Step, H.Sound, S.Placed;
    var s' := Next(s, step);
    GoodIs(s);
    IoctlHost(s, step, 0);
    forall no: nat
      ensures Received(s'.log, no) ==> Came(s', no)
      ensures Mailed(s', no) ==> Came(s', no) && !Received(s'.log, no)
    {
      IoctlHost(s, step, no);
      SameWire(s, s', no);
    }
    assert s'.host.unread > 0 ==> Mailed(s', s'.host.latest);
    GoodIs(s');
  }

  lemma SameWire(s: State, s': State, no: nat)
    requires s'.dev == s.dev && s'.arrived == s.arrived
    ensures (Came(s', no) <==> Came(s, no)) && (OnWire(s', no) <==> OnWire(s, no))
  {
  }

  lemma GoodStep(s: State, step: Step)
    requires Good(s) && Enabled(s, step)
    ensures Good(Next(s, step))
  {
    match step
    case Device(d) => DeviceGood(s, d);
    case Arrive => ArriveGood(s);
    case _ => IoctlGood(s, step);
  }

  // ----- The ways of losing the newest value

  /** Its URB has no 4-byte buffer. */
  predicate Unreadable(s: State, step: Step) {
    step.Device? && S.Loses(s.dev, step.step)
  }

  /** A reader failure erases it from the host's mailbox. */
  predicate Erased(s: State, step: Step) {
    && step.Arrive? && s.arrived < |s.dev.out| && s.dev.out[s.arrived].Failed?
    && s.dev.out[s.arrived].status != STATUS_CANCELLED
    && Mailed(s, |s.dev.raised|)
  }

  /** IOCTLs take it none of which has room for it. */
  ghost predicate TakenInVain(s: State, step: Step) {
    || (step.Ask? && Mailed(s, |s.dev.raised|) && !HasRoom(step.waiter))
    || (step.Arrive? && s.arrived < |s.dev.out| && s.dev.out[s.arrived].Done?
        && s.dev.out[s.arrived].value == |s.dev.raised|
        && s.host.waiting != [] && !SomeRoom(s.host.waiting))
  }

  /** An older value arrives while the mailbox holds it unread. */
  predicate Overwritten(s: State, step: Step) {
    && step.Arrive? && s.arrived < |s.dev.out| && s.dev.out[s.arrived].Done?
    && s.dev.out[s.arrived].value < |s.dev.raised| && Mailed(s, |s.dev.raised|)
  }

  ghost predicate Loses(s: State, step: Step) {
    Unreadable(s, step) || Erased(s, step) || TakenInVain(s, step) || Overwritten(s, step)
  }

  lemma ArriveKeeps(s: State)
    requires Good(s) && Enabled(s, Arrive)
    ensures Kept(Next(s, Arrive)) <==> Kept(s) && !Loses(s, Arrive)
  {
    hide Next, Came, OnWire, Received, H.Step, S.Placed, InDevice;
    var c, no := s.dev.out[s.arrived], |s.dev.raised|;
    ArriveWire(s, no);
    ArriveHost(s, no);
    if c.Done? {
      Arriving(s);
      if c.value == no {
        CameOnce(Next(s, Arrive), no);
      }
    }
    if Mailed(s, no) {
      CameOnce(s, no);
    }
  }

  lemma IoctlKeeps(s: State, step: Step)
    requires Good(s) && (step.Ask? || step.CancelAsk?)
    ensures Kept(Next(s, step)) <==> Kept(s) && !Loses(s, step)
  {
    hide Next, Came, OnWire, Received, H.Step, S.Placed, InDevice;
    var no := |s.dev.raised|;
    IoctlHost(s, step, no);
    SameWire(s, Next(s, step), no);
    if Mailed(s, no) {
      CameOnce(s, no);
    }
  }

  /** The newest value, once raised, is kept until a step loses it in one of those
      four ways, and then it stays lost until the next raise. */
  lemma NewestLostExactly(s: State, step: Step)
    requires Good(s) && Enabled(s, step)
    ensures Kept(Next(s, step)) <==>
            (step.Device? && step.step.RaiseLook?) || (Kept(s) && !Loses(s, step))
  {
    match step
    case Device(d) => DeviceKeeps(s, d);
    case Arrive => ArriveKeeps(s);
    case _ => IoctlKeeps(s, step);
  }

  lemma InitGood()
    ensures Good(INIT) && Kept(INIT) && Ordered(INIT) && Roomy(INIT)
  {
  }

  /** Whether the newest value is kept after steps, told from the losing steps alone. */
  ghost predicate KeptBy(s: State, steps: seq<Step>, kept: bool)
    requires CanRun(s, steps)
    decreases |steps|
  {
    if steps == [] then kept
    else
      var raises := steps[0].Device? && steps[0].step.RaiseLook?;
      KeptBy(Next(s, steps[0]), steps[1..], raises || (kept && !Loses(s, steps[0])))
  }

  /** Over every run from device to IOCTL. */
  lemma {:induction false} NewestInRun(s: State, steps: seq<Step>)
    requires Good(s) && CanRun(s, steps)
    ensures Good(Exec(s, steps))
    ensures Kept(Exec(s, steps)) <==> KeptBy(s, steps, Kept(s))
    decreases |steps|
  {
    hide Good, Kept, Loses, Next, Enabled;
    if steps != [] {
      GoodStep(s, steps[0]);
      NewestLostExactly(s, steps[0]);
      NewestInRun(Next(s, steps[0]), steps[1..]);
    }
  }

  // ----- Runs in which no raise overtakes an older value

  ghost predicate NoOvertaking(s: State, steps: seq<Step>)
    requires CanRun(s, steps)
    decreases |steps|
  {
    || steps == []
    || (&& !(steps[0].Device? && S.Overtakes(s.dev, steps[0].step))
        && NoOvertaking(Next(s, steps[0]), steps[1..]))
  }

  /** The IOCTLs have received values in raise order. */
  ghost predicate LogOrdered(log: seq<H.Completion<nat>>) {
    forall i, j | 0 <= i < j < |log| :: log[i].Done? && log[j].Done? ==> log[i].value <= log[j].value
  }

  /** So they have, together with the device and the mailbox: the values received
      are older than one in the mailbox. */
  ghost predicate Ordered(s: State) {
    && S.InOrder(s.dev)
    && LogOrdered(s.log)
    && (s.host.unread > 0 ==>
          forall i | 0 <= i < |s.log| :: s.log[i].Done? ==> s.log[i].value < s.host.latest)
  }

  /** The value that arrives is newer than all that came before it. */
  lemma ArrivesNewer(s: State, no: nat)
    requires Enabled(s, Arrive) && S.Sorted(s.dev.out) && s.dev.out[s.arrived].Done? && Came(s, no)
    ensures no < s.dev.out[s.arrived].value
  {
  }

  /** So with the order kept the mailbox is never overwritten by an older value. */
  lemma NeverOverwritten(s: State, step: Step)
    requires Good(s) && S.InOrder(s.dev) && Enabled(s, step)
    ensures !Overwritten(s, step)
  {
    if Overwritten(s, step) {
      ArrivesNewer(s, s.host.latest);
    }
  }

  /** At most one value is added to the log, newer than those in it. */
  lemma LogJoin(log: seq<H.Completion<nat>>, out: seq<H.Completion<nat>>, value: nat)
    requires LogOrdered(log)
    requires forall i | 0 <= i < |out| :: out[i].Done? ==> out[i].value == value
    requires (exists i | 0 <= i < |out| :: out[i].Done?) ==>
               forall i | 0 <= i < |log| :: log[i].Done? ==> log[i].value < value
    ensures LogOrdered(log + out)
  {
  }

  lemma OrderedArrive(s: State)
    requires Good(s) && Ordered(s) && Enabled(s, Arrive)
    ensures Ordered(Next(s, Arrive))
  {
    hide S.Placed;
    var c, s' := s.dev.out[s.arrived], Next(s, Arrive);
    var op := ReaderOp(c);
    if c.Done? {
      forall i | 0 <= i < |s.log| && s.log[i].Done?
        ensures s.log[i].value < c.value
      {
        ArrivesNewer(s, s.log[i].value);
      }
    }
    LogJoin(s.log, H.Broadcast(s.host.waiting, op.status, op.value), op.value);
  }

  lemma OrderedStep(s: State, step: Step)
    requires Good(s) && Ordered(s) && Enabled(s, step)
    requires !(step.Device? && S.Overtakes(s.dev, step.step))
    ensures Ordered(Next(s, step))
  {
    match step
    case Device(d) => S.InOrderExactly(s.dev, d);
    case Arrive => OrderedArrive(s);
    case Ask(waiter) => LogJoin(s.log, H.Step(s.host, H.GetMessage(waiter), 0).1, s.host.latest);
    case CancelAsk(k) => LogJoin(s.log, H.Step(s.host, H.CancelAt(k), 0).1, 0);
  }

  /** In every run in which no raise overtakes: the IOCTLs observe raise order, and the
      mailbox is never overwritten by an older value, so that only an unreadable URB, a
      reader failure and a want of room remain to lose the newest one. */
  lemma {:induction false} OrderInRun(s: State, steps: seq<Step>)
    requires Good(s) && Ordered(s) && CanRun(s, steps) && NoOvertaking(s, steps)
    ensures Good(Exec(s, steps)) && Ordered(Exec(s, steps))
    ensures NeverOverwrites(s, steps)
    decreases |steps|
  {
    hide Good, Ordered, Next, Enabled, Overwritten, S.Overtakes;
    if steps != [] {
      GoodStep(s, steps[0]);
      OrderedStep(s, steps[0]);
      DeviceInOrder(s);
      NeverOverwritten(s, steps[0]);
      OrderInRun(Next(s, steps[0]), steps[1..]);
    }
  }

  lemma DeviceInOrder(s: State)
    requires Ordered(s)
    ensures S.InOrder(s.dev)
  {
  }

  ghost predicate NeverOverwrites(s: State, steps: seq<Step>)
    requires CanRun(s, steps)
    decreases |steps|
  {
    steps == [] || (!Overwritten(s, steps[0]) && NeverOverwrites(Next(s, steps[0]), steps[1..]))
  }

  /** The step brings no URB without a 4-byte buffer, no reader failure other than a
      cancellation, and no IOCTL without room. */
  predicate Harmless(s: State, step: Step) {
    match step
    case Device(d) => d.SubmitTake? ==> D.Readable(d.urb)
    case Arrive =>
      s.arrived < |s.dev.out| && s.dev.out[s.arrived].Failed? ==> s.dev.out[s.arrived].status == STATUS_CANCELLED
    case Ask(waiter) => HasRoom(waiter)
    case CancelAsk(_) => true
  }

  ghost predicate AllHarmless(s: State, steps: seq<Step>)
    requires CanRun(s, steps)
    decreases |steps|
  {
    steps == [] || (Harmless(s, steps[0]) && AllHarmless(Next(s, steps[0]), steps[1..]))
  }

  ghost predicate Roomy(s: State) {
    S.AllReadable(s.dev) && forall i | 0 <= i < |s.host.waiting| :: HasRoom(s.host.waiting[i])
  }

  lemma RoomyStep(s: State, step: Step)
    requires Roomy(s) && Enabled(s, step) && Harmless(s, step)
    ensures Roomy(Next(s, step)) && !Unreadable(s, step) && !Erased(s, step) && !TakenInVain(s, step)
  {
    if step.Device? {
      S.ReadableStep(s.dev, step.step);
    } else if s.host.waiting != [] {
      assert HasRoom(s.host.waiting[0]);
    }
  }

  /** Without those, and without overtaking, the newest value is never lost. */
  lemma {:induction false} NewestNeverLost(s: State, steps: seq<Step>)
    requires Good(s) && Ordered(s) && Roomy(s) && Kept(s)
    requires CanRun(s, steps) && NoOvertaking(s, steps) && AllHarmless(s, steps)
    ensures Kept(Exec(s, steps))
    decreases |steps|
  {
    hide Good, Ordered, Kept, Roomy, Next, Enabled, Harmless, Unreadable, Erased, TakenInVain, Overwritten, S.Overtakes;
    if steps != [] {
      GoodStep(s, steps[0]);
      OrderedStep(s, steps[0]);
      RoomyStep(s, steps[0]);
      DeviceInOrder(s);
      NeverOverwritten(s, steps[0]);
      NewestLostExactly(s, steps[0]);
      NewestNeverLost(Next(s, steps[0]), steps[1..]);
    }
  }

  // ----- A run in which the order is lost, and with it the newest value

  lemma {:induction false} ExecAppend(s: State, steps: seq<Step>, last: Step)
    requires CanRun(s, steps) && Enabled(Exec(s, steps), last)
    ensures CanRun(s, steps + [last]) && Exec(s, steps + [last]) == Next(Exec(s, steps), last)
    decreases |steps|
  {
    hide Next, Enabled;
    if steps == [] {
      assert [last][1..] == [];
    } else {
      ExecAppend(Next(s, steps[0]), steps[1..], last);
      assert (steps + [last])[1..] == steps[1..] + [last];
    }
  }

  function Lifted(steps: seq<S.Step>): (r: seq<Step>)
    ensures |r| == |steps| && forall i | 0 <= i < |r| :: r[i] == Device(steps[i])
  {
    seq(|steps|, i requires 0 <= i < |steps| => Device(steps[i]))
  }

  /** A run of the device alone. */
  lemma {:induction false} DeviceRun(s: State, steps: seq<S.Step>)
    requires S.CanRun(s.dev, steps)
    ensures CanRun(s, Lifted(steps)) && Exec(s, Lifted(steps)) == s.(dev := S.Exec(s.dev, steps))
    decreases |steps|
  {
    hide S.Next, S.Enabled;
    if steps != [] {
      DeviceRun(Next(s, Device(steps[0])), steps[1..]);
      assert Lifted(steps)[1..] == Lifted(steps[1..]);
    }
  }

  const WAITER := H.Waiter(7, H.FLAGS_SIZE)

  /** For any two values: all URBs and the IOCTL have room, nothing fails, and the
      second value, the newest, reaches nobody. */
  lemma OlderOverwritesNewest(first: uint32, second: uint32) returns (steps: seq<Step>)
    ensures CanRun(INIT, steps)
    ensures var s := Exec(INIT, steps);
            && s.dev.raised == [first, second] && !Kept(s)
            && s.log == [H.Done(WAITER, STATUS_SUCCESS, 1)]
            && s.arrived == |s.dev.out| && s.host.unread == 0 && s.host.waiting == []
  {
    hide S.Next, S.Enabled;
    var inverted := S.OrderInverted(first, second);
    DeviceRun(INIT, inverted);
    steps := Lifted(inverted);
    var dev := S.Exec(S.INIT, inverted);
    ExecAppend(INIT, steps, Arrive);
    steps := steps + [Arrive];
    ExecAppend(INIT, steps, Arrive);
    steps := steps + [Arrive];
    ExecAppend(INIT, steps, Ask(WAITER));
    steps := steps + [Ask(WAITER)];
    assert Exec(INIT, steps) == State(dev, 2, H.Init(0), [H.Done(WAITER, STATUS_SUCCESS, 1)]);
    assert !InDevice(dev, 2);
  }
}
