/** The rendezvous at its real granularity.  A push first looks for a parked
    read and, finding none, later parks its write; a pull first looks for a parked
    write and, finding none, later parks itself.  Pushes come from one sequential
    dispatch queue and pulls from another, so at most one of each is between its
    two steps, and anything else may happen in between. */
module RendezvousSteps {
  import opened Counting
  import opened Wdf
  import R = Rendezvous

  type Read = R.Read

  /** Writes go by their place in the push order. */
  type Write = nat

  datatype Handover = Handover(write: Write, read: Read)

  datatype State = State(
    writes: seq<Write>,         // parked writes
    waiting: seq<Read>,         // parked reads
    pusher: Option<Write>,      // found no read, about to park
    puller: Option<Read>,       // found no write, about to park
    handed: seq<Handover>,      // deliveries so far
    pushed: seq<Bytes>,         // the bytes of every write so far
    pulled: seq<Read>,          // every read so far
    refused: seq<Write>,        // writes failed for want of memory
    cancelled: seq<Read>,       // reads completed with STATUS_CANCELLED
    dropped: seq<Read>)         // reads that could not be parked: never completed

  const INIT := State([], [], None, None, [], [], [], [], [], [])

  datatype Step =
    | LookForRead(data: Bytes)
    | ParkWrite(allocOk: bool)
    | LookForWrite(read: Read)
    | ParkRead(forwardOk: bool)
    | CancelAt(k: nat)

  predicate Enabled(s: State, step: Step) {
    match step
    case LookForRead(_) => s.pusher.None?
    case ParkWrite(_) => s.pusher.Some?
    case LookForWrite(read) => s.puller.None? && read !in s.pulled
    case ParkRead(_) => s.puller.Some?
    case CancelAt(k) => k < |s.waiting|
  }

  function Next(s: State, step: Step): State
    requires Enabled(s, step)
  {
    match step
    case LookForRead(data) =>
      var w := |s.pushed|;
      var s' := s.(pushed := s.pushed + [data]);
      if s.waiting != [] then
        s'.(handed := s.handed + [Handover(w, s.waiting[0])], waiting := s.waiting[1..])
      else
        s'.(pusher := Some(w))
    case ParkWrite(allocOk) =>
      var w := s.pusher.value;
      if allocOk then s.(pusher := None, writes := s.writes + [w])
      else s.(pusher := None, refused := s.refused + [w])
    case LookForWrite(read) =>
      var s' := s.(pulled := s.pulled + [read]);
      if s.writes != [] then
        s'.(handed := s.handed + [Handover(s.writes[0], read)], writes := s.writes[1..])
      else
        s'.(puller := Some(read))
    case ParkRead(forwardOk) =>
      var r := s.puller.value;
      if forwardOk then s.(puller := None, waiting := s.waiting + [r])
      else s.(puller := None, dropped := s.dropped + [r])
    case CancelAt(k) =>
      s.(waiting := s.waiting[..k] + s.waiting[k + 1..], cancelled := s.cancelled + [s.waiting[k]])
  }

  ghost predicate CanRun(s: State, steps: seq<Step>)
    decreases |steps|
  {
    steps == [] || (Enabled(s, steps[0]) && CanRun(Next(s, steps[0]), steps[1..]))
  }

  ghost function Exec(s: State, steps: seq<Step>): State
    requires CanRun(s, steps)
    decreases |steps|
  {
    if steps == [] then s else Exec(Next(s, steps[0]), steps[1..])
  }

  // ----- How far apart the two sides can get

  function InFlight<T>(o: Option<T>): nat {
    if o.Some? then 1 else 0
  }

  /** The strengthening that makes the bound inductive: a process about to park
      must not be able to lift the shorter side above one. */
  predicate Paired(s: State) {
    && (|s.writes| <= 1 || |s.waiting| <= 1)
    && (s.pusher.Some? ==> s.writes == [] || |s.waiting| <= 1)
    && (s.puller.Some? ==> s.waiting == [] || |s.writes| <= 1)
    && (s.pusher.Some? && s.puller.Some? ==> s.writes == [] || s.waiting == [])
  }

  lemma PairedStep(s: State, step: Step)
    requires Paired(s) && Enabled(s, step)
    ensures Paired(Next(s, step))
  {
  }

  /** In every reachable state at most one parked write, or at most one parked
      read, has missed its partner. */
  lemma {:induction false} AtMostOneStranded(s: State, steps: seq<Step>)
    requires Paired(s) && CanRun(s, steps)
    ensures Paired(Exec(s, steps))
    ensures Min(|Exec(s, steps).writes|, |Exec(s, steps).waiting|) <= 1
    decreases |steps|
  {
    if steps != [] {
      PairedStep(s, steps[0]);
      AtMostOneStranded(Next(s, steps[0]), steps[1..]);
    }
  }

  lemma {:induction false} ExecAppend(s: State, steps: seq<Step>, last: Step)
    requires CanRun(s, steps) && Enabled(Exec(s, steps), last)
    ensures CanRun(s, steps + [last])
    ensures Exec(s, steps + [last]) == Next(Exec(s, steps), last)
    decreases |steps|
  {
    if steps == [] {
      assert [last][1..] == [];
    } else {
      ExecAppend(Next(s, steps[0]), steps[1..], last);
      assert (steps + [last])[1..] == steps[1..] + [last];
    }
  }

  /** With one pull caught between its two steps, any number of pushes park. */
  lemma {:induction false} Flood(k: nat) returns (steps: seq<Step>)
    ensures CanRun(INIT, steps)
    ensures var s := Exec(INIT, steps);
            && |s.writes| == k && s.waiting == [] && s.pusher == None && s.puller == Some(R.Read(0, 0))
  {
    if k == 0 {
      steps := [LookForWrite(R.Read(0, 0))];
      ExecAppend(INIT, [], steps[0]);
      assert [] + steps == steps;
    } else {
      steps := Flood(k - 1);
      ExecAppend(INIT, steps, LookForRead([]));
      steps := steps + [LookForRead([])];
      ExecAppend(INIT, steps, ParkWrite(true));
      steps := steps + [ParkWrite(true)];
    }
  }

  /** The bound is tight: both sides can be non-empty with nothing in flight, and
      the longer side is unbounded. */
  lemma StrandingHappens(k: nat) returns (steps: seq<Step>)
    ensures CanRun(INIT, steps)
    ensures var s := Exec(INIT, steps);
            |s.writes| == k && |s.waiting| == 1 && s.pusher == None && s.puller == None
  {
    steps := Flood(k);
    ExecAppend(INIT, steps, ParkRead(true));
    steps := steps + [ParkRead(true)];
  }

  // ----- Run back to back, the two steps are the atomic operation

  ghost predicate Known(s: State) {
    && (forall i | 0 <= i < |s.writes| :: s.writes[i] < |s.pushed|)
    && (forall i | 0 <= i < |s.handed| :: s.handed[i].write < |s.pushed|)
    && (s.pusher.Some? ==> s.pusher.value < |s.pushed|)
  }

  function Datas(ws: seq<Write>, pushed: seq<Bytes>): (r: seq<Bytes>)
    requires forall i | 0 <= i < |ws| :: ws[i] < |pushed|
    ensures |r| == |ws|
    ensures forall i | 0 <= i < |r| :: r[i] == pushed[ws[i]]
  {
    seq(|ws|, i requires 0 <= i < |ws| => pushed[ws[i]])
  }

  function Deliveries(hs: seq<Handover>, pushed: seq<Bytes>): (r: seq<R.Delivery>)
    requires forall i | 0 <= i < |hs| :: hs[i].write < |pushed|
    ensures |r| == |hs|
    ensures forall i | 0 <= i < |r| :: r[i] == R.Deliver(pushed[hs[i].write], hs[i].read)
  {
    seq(|hs|, i requires 0 <= i < |hs| => R.Deliver(pushed[hs[i].write], hs[i].read))
  }

  /** The atomic state with its deliveries. */
  ghost function AsSystem(s: State): R.System
    requires Known(s)
  {
    R.System(R.Queue(Datas(s.writes, s.pushed), s.waiting), Deliveries(s.handed, s.pushed))
  }

  predicate Quiescent(s: State) {
    s.pusher == None && s.puller == None
  }

  lemma PushUninterrupted(s: State, data: Bytes)
    requires Known(s) && s.pusher == None
    ensures var s1 := Next(s, LookForRead(data));
            var s2 := if s1.pusher.Some? then Next(s1, ParkWrite(true)) else s1;
            Known(s2) && AsSystem(s2) == R.Step(AsSystem(s), R.Push(data))
  {
    var s1 := Next(s, LookForRead(data));
    assert Datas(s.writes, s.pushed + [data]) == Datas(s.writes, s.pushed);
    assert Deliveries(s.handed, s.pushed + [data]) == Deliveries(s.handed, s.pushed);
    if s.waiting != [] {
      assert Deliveries(s1.handed, s1.pushed) ==
             Deliveries(s.handed, s.pushed) + [R.Deliver(data, s.waiting[0])];
    } else {
      assert Datas(s.writes + [|s.pushed|], s1.pushed) == Datas(s.writes, s.pushed) + [data];
    }
  }

  lemma PullUninterrupted(s: State, read: Read)
    requires Known(s) && s.puller == None && read !in s.pulled
    ensures var s1 := Next(s, LookForWrite(read));
            var s2 := if s1.puller.Some? then Next(s1, ParkRead(true)) else s1;
            Known(s2) && AsSystem(s2) == R.Step(AsSystem(s), R.Pull(read))
  {
    if s.writes != [] {
      var s1 := Next(s, LookForWrite(read));
      assert Datas(s.writes, s.pushed)[1..] == Datas(s.writes[1..], s.pushed);
      assert Deliveries(s1.handed, s.pushed) ==
             Deliveries(s.handed, s.pushed) + [R.Deliver(s.pushed[s.writes[0]], read)];
    }
  }

  /** A push that cannot park its bytes, and a pull that cannot park itself, leave the
      atomic state as it was. */
  lemma NotParked(s: State, data: Bytes, read: Read)
    requires Known(s)
    ensures s.pusher == None && s.waiting == [] ==>
              var s' := Next(Next(s, LookForRead(data)), ParkWrite(false));
              && Known(s') && AsSystem(s') == AsSystem(s) && s'.pusher == None
              && s'.refused == s.refused + [|s.pushed|]
    ensures s.puller == None && s.writes == [] && read !in s.pulled ==>
              var s' := Next(Next(s, LookForWrite(read)), ParkRead(false));
              Known(s') && AsSystem(s') == AsSystem(s) && s'.puller == None && s'.dropped == s.dropped + [read]
  {
    assert Datas(s.writes, s.pushed + [data]) == Datas(s.writes, s.pushed);
    assert Deliveries(s.handed, s.pushed + [data]) == Deliveries(s.handed, s.pushed);
  }

  /** The place of the first parked read with this id. */
  function PlaceOf(rs: seq<Read>, id: nat): (k: Option<nat>)
    ensures k.None? ==> forall i | 0 <= i < |rs| :: rs[i].id != id
    ensures k.Some? ==> k.value < |rs| && rs[k.value].id == id && forall i | 0 <= i < k.value :: rs[i].id != id
  {
    if rs == [] then None
    else if rs[0].id == id then Some(0)
    else match PlaceOf(rs[1..], id)
      case None => None
      case Some(k) => Some(k + 1)
  }

  lemma CancelIsAtomic(s: State, id: nat)
    requires Known(s)
    ensures var k := PlaceOf(s.waiting, id);
            var s' := if k.Some? then Next(s, CancelAt(k.value)) else s;
            Known(s') && AsSystem(s') == R.Step(AsSystem(s), R.Cancel(id))
  {
    var k := PlaceOf(s.waiting, id);
    if k.Some? {
      R.RemoveAt(s.waiting, id, k.value);
    } else {
      R.RemoveNothing(s.waiting, id);
    }
  }

  /** The steps of an operation that nothing interrupts. */
  function Steps(s: State, op: R.Op): seq<Step> {
    match op
    case Push(data) => if s.waiting != [] then [LookForRead(data)] else [LookForRead(data), ParkWrite(true)]
    case Pull(read) => if s.writes != [] then [LookForWrite(read)] else [LookForWrite(read), ParkRead(true)]
    case Cancel(id) =>
      match PlaceOf(s.waiting, id)
      case None => []
      case Some(k) => [CancelAt(k)]
  }

  lemma RunTwo(s: State, one: Step, two: Step)
    requires Enabled(s, one)
    ensures CanRun(s, [one]) && Exec(s, [one]) == Next(s, one)
    ensures Enabled(Next(s, one), two) ==>
              CanRun(s, [one, two]) && Exec(s, [one, two]) == Next(Next(s, one), two)
  {
    assert [one][1..] == [] && [one, two][1..] == [two] && [two][1..] == [];
    var s1 := Next(s, one);
    if Enabled(s1, two) {
      assert CanRun(s1, [two]) && Exec(s1, [two]) == Next(s1, two);
    }
  }

  lemma OpUninterrupted(s: State, op: R.Op)
    requires Known(s) && Quiescent(s) && (op.Pull? ==> op.read !in s.pulled)
    ensures CanRun(s, Steps(s, op))
    ensures var s' := Exec(s, Steps(s, op));
            && Known(s') && Quiescent(s') && AsSystem(s') == R.Step(AsSystem(s), op)
            && s'.pulled == s.pulled + if op.Pull? then [op.read] else []
  {
    match op
    case Push(data) =>
      PushUninterrupted(s, data);
      RunTwo(s, LookForRead(data), ParkWrite(true));
    case Pull(read) =>
      PullUninterrupted(s, read);
      RunTwo(s, LookForWrite(read), ParkRead(true));
    case Cancel(id) =>
      CancelIsAtomic(s, id);
      if PlaceOf(s.waiting, id).Some? {
        RunTwo(s, CancelAt(PlaceOf(s.waiting, id).value), ParkWrite(true));
      }
  }

  lemma {:induction false} ExecConcat(s: State, a: seq<Step>, b: seq<Step>)
    requires CanRun(s, a) && CanRun(Exec(s, a), b)
    ensures CanRun(s, a + b) && Exec(s, a + b) == Exec(Exec(s, a), b)
    decreases |a|
  {
    if a == [] {
      assert a + b == b;
    } else {
      ExecConcat(Next(s, a[0]), a[1..], b);
      assert (a + b)[1..] == a[1..] + b;
    }
  }

  /** Every run of the atomic rendezvous is a run of this machine, delivery for
      delivery: the one in which no operation is interrupted. */
  lemma {:induction false} AtomicRuns(ops: seq<R.Op>) returns (steps: seq<Step>)
    requires forall i, j | 0 <= i < j < |R.Pulls(ops)| :: R.Pulls(ops)[i] != R.Pulls(ops)[j]
    ensures CanRun(INIT, steps)
    ensures var s := Exec(INIT, steps);
            Known(s) && Quiescent(s) && AsSystem(s) == R.Run(ops) && s.pulled == R.Pulls(ops)
  {
    if ops == [] {
      steps := [];
    } else {
      var front, op := ops[..|ops| - 1], ops[|ops| - 1];
      var pulls, n := R.Pulls(ops), |R.Pulls(front)|;
      assert pulls[..n] == R.Pulls(front);
      assert forall i | 0 <= i < n :: R.Pulls(front)[i] == pulls[i];
      if op.Pull? {
        assert pulls[n] == op.read;
      }
      steps := AtomicRuns(front);
      var s := Exec(INIT, steps);
      OpUninterrupted(s, op);
      ExecConcat(INIT, steps, Steps(s, op));
      steps := steps + Steps(s, op);
    }
  }

  // ----- Conservation

  function CountOption<T(==)>(o: Option<T>, x: T): nat {
    if o == Some(x) then 1 else 0
  }

  function Writes(hs: seq<Handover>): (r: seq<Write>)
    ensures |r| == |hs|
    ensures forall i | 0 <= i < |r| :: r[i] == hs[i].write
  {
    seq(|hs|, i requires 0 <= i < |hs| => hs[i].write)
  }

  function Reads(hs: seq<Handover>): (r: seq<Read>)
    ensures |r| == |hs|
    ensures forall i | 0 <= i < |r| :: r[i] == hs[i].read
  {
    seq(|hs|, i requires 0 <= i < |hs| => hs[i].read)
  }

  lemma CountHanded(hs: seq<Handover>, h: Handover, w: Write, r: Read)
    ensures Count(Writes(hs + [h]), w) == Count(Writes(hs), w) + if h.write == w then 1 else 0
    ensures Count(Reads(hs + [h]), r) == Count(Reads(hs), r) + if h.read == r then 1 else 0
  {
    assert Writes(hs + [h]) == Writes(hs) + [h.write];
    assert Reads(hs + [h]) == Reads(hs) + [h.read];
    CountAppend(Writes(hs), h.write, w);
    CountAppend(Reads(hs), h.read, r);
  }

  /** How often w is delivered, parked, about to park or refused. */
  function WriteUses(s: State, w: Write): nat {
    Count(Writes(s.handed), w) + Count(s.writes, w) + CountOption(s.pusher, w) + Count(s.refused, w)
  }

  /** How often r is served, parked, about to park, cancelled or dropped. */
  function ReadUses(s: State, r: Read): nat {
    Count(Reads(s.handed), r) + Count(s.waiting, r) + CountOption(s.puller, r)
    + Count(s.cancelled, r) + Count(s.dropped, r)
  }

  lemma WriteUsesStep(s: State, step: Step, w: Write)
    requires Enabled(s, step)
    ensures WriteUses(Next(s, step), w) ==
            WriteUses(s, w) + if step.LookForRead? && w == |s.pushed| then 1 else 0
  {
    match step
    case LookForRead(data) =>
      if s.waiting != [] {
        CountHanded(s.handed, Handover(|s.pushed|, s.waiting[0]), w, s.waiting[0]);
      }
    case LookForWrite(read) =>
      if s.writes != [] {
        CountHanded(s.handed, Handover(s.writes[0], read), w, read);
        CountTail(s.writes, w);
      }
    case ParkWrite(allocOk) =>
      CountAppend(if allocOk then s.writes else s.refused, s.pusher.value, w);
    case _ =>
  }

  lemma ReadUsesStep(s: State, step: Step, r: Read)
    requires Enabled(s, step)
    ensures ReadUses(Next(s, step), r) == ReadUses(s, r) + if step == LookForWrite(r) then 1 else 0
  {
    match step
    case LookForRead(data) =>
      if s.waiting != [] {
        var h := Handover(|s.pushed|, s.waiting[0]);
        CountHanded(s.handed, h, h.write, r);
        CountTail(s.waiting, r);
      }
    case LookForWrite(read) =>
      if s.writes != [] {
        var h := Handover(s.writes[0], read);
        CountHanded(s.handed, h, h.write, r);
      }
    case ParkRead(_) =>
      CountAppend(if step.forwardOk then s.waiting else s.dropped, s.puller.value, r);
    case CancelAt(k) =>
      CountTakeAt(s.waiting, k, r);
      CountAppend(s.cancelled, s.waiting[k], r);
    case _ =>
  }

  ghost predicate WriteAccounted(s: State, w: Write) {
    WriteUses(s, w) == if w < |s.pushed| then 1 else 0
  }

  ghost predicate ReadAccounted(s: State, r: Read) {
    ReadUses(s, r) == if r in s.pulled then 1 else 0
  }

  lemma WriteAccountedStep(s: State, step: Step, w: Write)
    requires WriteAccounted(s, w) && Enabled(s, step)
    ensures WriteAccounted(Next(s, step), w)
  {
    WriteUsesStep(s, step, w);
    assert |Next(s, step).pushed| == |s.pushed| + if step.LookForRead? then 1 else 0;
  }

  lemma PulledStep(s: State, step: Step, r: Read)
    requires Enabled(s, step)
    ensures r in Next(s, step).pulled <==> r in s.pulled || step == LookForWrite(r)
  {
  }

  lemma ReadAccountedStep(s: State, step: Step, r: Read)
    requires ReadAccounted(s, r) && Enabled(s, step)
    ensures ReadAccounted(Next(s, step), r)
  {
    ReadUsesStep(s, step, r);
    PulledStep(s, step, r);
  }

  lemma {:induction false} AccountedRun(s: State, steps: seq<Step>, w: Write, r: Read)
    requires CanRun(s, steps) && WriteAccounted(s, w) && ReadAccounted(s, r)
    ensures WriteAccounted(Exec(s, steps), w) && ReadAccounted(Exec(s, steps), r)
    decreases |steps|
  {
    if steps != [] {
      WriteAccountedStep(s, steps[0], w);
      ReadAccountedStep(s, steps[0], r);
      AccountedRun(Next(s, steps[0]), steps[1..], w, r);
    }
  }

  /** In every interleaving each write pushed so far is in exactly one of those
      places, each read so far likewise, and nothing else is anywhere. */
  lemma Conservation(steps: seq<Step>, w: Write, r: Read)
    requires CanRun(INIT, steps)
    ensures var s := Exec(INIT, steps);
            && WriteUses(s, w) == (if w < |s.pushed| then 1 else 0)
            && ReadUses(s, r) == (if r in s.pulled then 1 else 0)
  {
    AccountedRun(INIT, steps, w, r);
  }

  /** Whatever interleaves, no write goes to two reads, no read gets two writes,
      and a cancelled read gets none. */
  lemma DeliveredAtMostOnce(steps: seq<Step>, i: nat, j: nat)
    requires CanRun(INIT, steps)
    requires i < j < |Exec(INIT, steps).handed|
    ensures var s := Exec(INIT, steps);
            && s.handed[i].write != s.handed[j].write
            && s.handed[i].read != s.handed[j].read
            && s.handed[i].read !in s.cancelled
  {
    var s := Exec(INIT, steps);
    var h := s.handed[i];
    Conservation(steps, h.write, h.read);
    CountTakeAt(Reads(s.handed), i, h.read);
    if h.write == s.handed[j].write {
      CountTwice(Writes(s.handed), i, j);
    }
    if h.read == s.handed[j].read {
      CountTwice(Reads(s.handed), i, j);
    }
    if h.read in s.cancelled {
      var k :| 0 <= k < |s.cancelled| && s.cancelled[k] == h.read;
      CountTakeAt(s.cancelled, k, h.read);
    }
  }

  // ----- How far a parked write can be overtaken

  /** Parked writes are in push order, and the write in flight is the newest. */
  ghost predicate Ordered(s: State) {
    && (forall i, j | 0 <= i < j < |s.writes| :: s.writes[i] < s.writes[j])
    && (forall i | 0 <= i < |s.writes| :: s.writes[i] < |s.pushed|)
    && (s.pusher.Some? ==>
          s.pusher.value < |s.pushed| && forall i | 0 <= i < |s.writes| :: s.writes[i] < s.pusher.value)
  }

  lemma OrderedStep(s: State, step: Step)
    requires Ordered(s) && Enabled(s, step)
    ensures Ordered(Next(s, step))
  {
  }

  lemma {:induction false} OrderedRun(s: State, steps: seq<Step>)
    requires Ordered(s) && CanRun(s, steps)
    ensures Ordered(Exec(s, steps))
    decreases |steps|
  {
    if steps != [] {
      OrderedStep(s, steps[0]);
      OrderedRun(Next(s, steps[0]), steps[1..]);
    }
  }

  ghost predicate StaysParked(s: State, steps: seq<Step>, w: Write)
    requires CanRun(s, steps)
    decreases |steps|
  {
    w in s.writes && (steps == [] || StaysParked(Next(s, steps[0]), steps[1..], w))
  }

  /** The deliveries among hs of writes pushed after write number no. */
  function Overtakers(hs: seq<Handover>, no: Write): seq<Handover> {
    if hs == [] then []
    else (if hs[0].write > no then [hs[0]] else []) + Overtakers(hs[1..], no)
  }

  lemma OvertakersCons(h: Handover, rest: seq<Handover>, no: Write)
    ensures Overtakers([h] + rest, no) == (if h.write > no then [h] else []) + Overtakers(rest, no)
  {
    assert ([h] + rest)[1..] == rest;
  }

  ghost predicate Committed(s: State, r: Read) {
    r in s.waiting || s.puller == Some(r)
  }

  /** A step that leaves w parked hands over at most one write; if that write is
      newer than w, a read committed beforehand is used up. */
  lemma OvertakingStep(s: State, step: Step, w: Write)
    requires Ordered(s) && Enabled(s, step)
    requires w in s.writes && w in Next(s, step).writes
    ensures var s1 := Next(s, step);
            && (forall r | Committed(s1, r) :: Committed(s, r))
            && |s1.waiting| + InFlight(s1.puller) <= |s.waiting| + InFlight(s.puller)
            && (s1.handed == s.handed
                || exists h :: s1.handed == s.handed + [h]
                               && (h.write > w ==>
                                     Committed(s, h.read)
                                     && |s1.waiting| + InFlight(s1.puller) < |s.waiting| + InFlight(s.puller)))
  {
    var s1 := Next(s, step);
    if step.LookForWrite? {
      var h := Handover(s.writes[0], step.read);
      assert s1.handed == s.handed + [h] && h.write < w;
    } else if step.LookForRead? && s.waiting != [] {
      var h := Handover(|s.pushed|, s.waiting[0]);
      assert s1.handed == s.handed + [h] && Committed(s, h.read);
    }
  }

  /** Between s and s' every write that passed w used up a read committed in s. */
  ghost predicate PassedWithin(s: State, s': State, w: Write) {
    && s.handed <= s'.handed
    && var passed := Overtakers(s'.handed[|s.handed|..], w);
       && |passed| + |s'.waiting| + InFlight(s'.puller) <= |s.waiting| + InFlight(s.puller)
       && forall h | h in passed :: Committed(s, h.read)
  }

  lemma PassedAfterStep(s: State, step: Step, s': State, w: Write)
    requires Ordered(s) && Enabled(s, step) && w in s.writes && w in Next(s, step).writes
    requires PassedWithin(Next(s, step), s', w)
    ensures PassedWithin(s, s', w)
  {
    var s1 := Next(s, step);
    var rest := s'.handed[|s1.handed|..];
    OvertakingStep(s, step, w);
    if s1.handed != s.handed {
      var h :| s1.handed == s.handed + [h];
      assert s'.handed[|s.handed|..] == [h] + rest;
      OvertakersCons(h, rest, w);
    } else {
      assert s'.handed[|s.handed|..] == rest;
    }
  }

  lemma {:induction false} PassedInRun(s: State, steps: seq<Step>, w: Write)
    requires Ordered(s) && CanRun(s, steps) && StaysParked(s, steps, w)
    ensures PassedWithin(s, Exec(s, steps), w)
    decreases |steps|
  {
    if steps == [] {
      assert s.handed[|s.handed|..] == [];
    } else {
      OrderedStep(s, steps[0]);
      PassedInRun(Next(s, steps[0]), steps[1..], w);
      PassedAfterStep(s, steps[0], Exec(s, steps), w);
    }
  }

  /** While a write stays parked, later writes pass it only by being handed to
      reads that were parked, or committed to park, at the start; each such read is
      used up, so there are at most (parked reads) + 1 of them. */
  lemma BoundedOvertaking(s: State, steps: seq<Step>, w: Write)
    requires Ordered(s) && CanRun(s, steps) && StaysParked(s, steps, w)
    ensures var s' := Exec(s, steps);
            && s.handed <= s'.handed
            && var passed := Overtakers(s'.handed[|s.handed|..], w);
               && |passed| + |s'.waiting| + InFlight(s'.puller) <= |s.waiting| + InFlight(s.puller)
               && |passed| <= |s.waiting| + 1
               && forall h | h in passed :: Committed(s, h.read)
  {
    PassedInRun(s, steps, w);
  }

  /** The bound from the start of any run: `before' is the history up to some moment
      at which w is parked. */
  lemma OvertakenInAnyRun(before: seq<Step>, steps: seq<Step>, w: Write)
    requires CanRun(INIT, before) && CanRun(Exec(INIT, before), steps)
    requires StaysParked(Exec(INIT, before), steps, w)
    ensures var s, s' := Exec(INIT, before), Exec(Exec(INIT, before), steps);
            s.handed <= s'.handed && |Overtakers(s'.handed[|s.handed|..], w)| <= |s.waiting| + 1
  {
    OrderedRun(INIT, before);
    BoundedOvertaking(Exec(INIT, before), steps, w);
  }

  // ----- The bound is reached

  lemma RunCons(s: State, step: Step, steps: seq<Step>)
    requires Enabled(s, step) && CanRun(Next(s, step), steps)
    ensures CanRun(s, [step] + steps) && Exec(s, [step] + steps) == Exec(Next(s, step), steps)
    ensures forall w | w in s.writes && StaysParked(Next(s, step), steps, w) :: StaysParked(s, [step] + steps, w)
  {
    assert ([step] + steps)[1..] == steps;
  }

  /** From a state with w parked, a read about to park and none of the pushes under
      way, pushes pass w until all those reads are used up. */
  lemma {:induction false} PassAll(s: State, w: Write) returns (steps: seq<Step>)
    requires w in s.writes && w < |s.pushed| && s.pusher.None? && s.puller.Some?
    ensures CanRun(s, steps) && StaysParked(s, steps, w)
    ensures var s' := Exec(s, steps);
            s.handed <= s'.handed && |Overtakers(s'.handed[|s.handed|..], w)| == |s.waiting| + 1
    decreases |s.waiting|
  {
    if s.waiting == [] {
      var s1 := Next(s, ParkRead(true));
      var s2 := Next(s1, LookForRead([]));
      var h := Handover(|s.pushed|, s.puller.value);
      assert CanRun(s2, []) && StaysParked(s2, [], w);
      RunCons(s1, LookForRead([]), []);
      RunCons(s, ParkRead(true), [LookForRead([])] + []);
      steps := [ParkRead(true)] + ([LookForRead([])] + []);
      assert s2.handed[|s.handed|..] == [h] + [];
      OvertakersCons(h, [], w);
    } else {
      var s1 := Next(s, LookForRead([]));
      var h := Handover(|s.pushed|, s.waiting[0]);
      var rest := PassAll(s1, w);
      RunCons(s, LookForRead([]), rest);
      steps := [LookForRead([])] + rest;
      var handed := Exec(s1, rest).handed;
      assert handed[|s.handed|..] == [h] + handed[|s1.handed|..];
      OvertakersCons(h, handed[|s1.handed|..], w);
    }
  }

  /** While the first write is about to park, k reads park. */
  lemma {:induction false} ParkReads(k: nat) returns (steps: seq<Step>)
    ensures CanRun(INIT, steps)
    ensures var s := Exec(INIT, steps);
            && s.pusher == Some(0) && s.puller == None && s.writes == [] && |s.pushed| == 1
            && |s.waiting| == k && forall r | r in s.pulled :: r.id < k
  {
    steps := [];
    if k == 0 {
      ExecAppend(INIT, steps, LookForRead([]));
      steps := steps + [LookForRead([])];
    } else {
      steps := ParkReads(k - 1);
      var read := R.Read(k - 1, 0);
      ExecAppend(INIT, steps, LookForWrite(read));
      steps := steps + [LookForWrite(read)];
      ExecAppend(INIT, steps, ParkRead(true));
      steps := steps + [ParkRead(true)];
    }
  }

  /** For every k there is a run in which the first write parks beside k reads and is
      then passed by exactly k + 1 later ones. */
  lemma OvertakingHappens(k: nat) returns (before: seq<Step>, steps: seq<Step>)
    ensures CanRun(INIT, before) && CanRun(Exec(INIT, before), steps)
    ensures var s, s' := Exec(INIT, before), Exec(Exec(INIT, before), steps);
            && |s.waiting| == k && StaysParked(s, steps, 0) && s.handed <= s'.handed
            && |Overtakers(s'.handed[|s.handed|..], 0)| == k + 1
  {
    before := ParkReads(k);
    var read := R.Read(k, 0);
    ExecAppend(INIT, before, LookForWrite(read));
    before := before + [LookForWrite(read)];
    ExecAppend(INIT, before, ParkWrite(true));
    before := before + [ParkWrite(true)];
    steps := PassAll(Exec(INIT, before), 0);
  }
}
