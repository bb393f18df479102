/** The host latch at its real granularity.  IOCTLs run in parallel, each in two
    steps: its lock section and, if that found nothing, its forward to the queue.
    Reader completions are serialised, each in the steps retrieve, lock section,
    and the alternating complete/retrieve of the drain. */
module HostLatchSteps {
  import opened Counting
  import opened Wdf
  import H = HostLatch

  type Waiter = H.Waiter

  /** A value received, with the number of interrupts that had passed the lock at its
      linearisation point: the IOCTL's own lock section for data it found there, the
      completing step for a drained waiter. */
  datatype Delivery<V> = Delivery(waiter: Waiter, value: V, at: nat)

  datatype Reader<V> =
    | Idle
    | Retrieved(status: NtStatus, value: V, held: Option<Waiter>)
    | Draining(status: NtStatus, value: V, held: Option<Waiter>)

  datatype State<V> = State(
    latest: V,
    unread: nat,
    waiting: seq<Waiter>,    // parked IOCTLs
    parking: set<Waiter>,    // IOCTLs that found nothing and are about to park
    reader: Reader<V>,
    passed: seq<V>,          // successful interrupts that have been through the lock
    log: seq<Delivery<V>>,   // IOCTLs that received a value
    failed: seq<Waiter>,     // IOCTLs completed with an error, for want of room among others
    cancelled: seq<Waiter>,
    asked: set<Waiter>,      // every IOCTL so far
    out: seq<H.Completion<V>>)   // the completions of all of them, with their status

  function Init<V>(zero: V): State<V> {
    State(zero, 0, [], {}, Idle, [], [], [], [], {}, [])
  }

  datatype Step<V> =
    | Ask(waiter: Waiter)
    | Park(waiter: Waiter, forwardOk: bool)
    | CancelAt(k: nat)
    | Retrieve(status: NtStatus, value: V)
    | Lock
    | Complete
    | RetrieveNext

  predicate Enabled<V>(s: State<V>, step: Step<V>) {
    match step
    case Ask(w) => w !in s.asked
    case Park(w, _) => w in s.parking
    case CancelAt(k) => k < |s.waiting|
    case Retrieve(_, _) => s.reader.Idle?
    case Lock => s.reader.Retrieved?
    case Complete => s.reader.Draining? && s.reader.held.Some?
    case RetrieveNext => s.reader.Draining? && s.reader.held.None?
  }

  function First(xs: seq<Waiter>): Option<Waiter> {
    if xs == [] then None else Some(xs[0])
  }

  function Rest(xs: seq<Waiter>): seq<Waiter> {
    if xs == [] then [] else xs[1..]
  }

  predicate HasRoom(w: Waiter) {
    w.room >= H.FLAGS_SIZE
  }

  /** OsrCompleteInterruptRequest */
  function Answer<V>(s: State<V>, w: Waiter, status: NtStatus, value: V): State<V> {
    var s' := s.(out := s.out + [H.Complete(w, status, value)]);
    if HasRoom(w) && NtSuccess(status) then s'.(log := s.log + [Delivery(w, value, |s.passed|)])
    else s'.(failed := s.failed + [w])
  }

  function Next<V>(s: State<V>, step: Step<V>, zero: V): State<V>
    requires Enabled(s, step)
  {
    match step
    case Ask(w) =>
      var s' := s.(asked := s.asked + {w});
      if s.unread > 0 then Answer(s'.(latest := zero, unread := 0), w, STATUS_SUCCESS, s.latest)
      else s'.(parking := s.parking + {w})
    case Park(w, forwardOk) =>
      var s' := s.(parking := s.parking - {w});
      if forwardOk then s'.(waiting := s.waiting + [w])
      else s'.(failed := s.failed + [w], out := s.out + [H.Failed(w, STATUS_WDF_BUSY, 0)])
    case CancelAt(k) =>
      s.(waiting := s.waiting[..k] + s.waiting[k + 1..], cancelled := s.cancelled + [s.waiting[k]],
         out := s.out + [H.Failed(s.waiting[k], STATUS_CANCELLED, 0)])
    case Retrieve(status, value) =>
      s.(reader := Retrieved(status, value, First(s.waiting)), waiting := Rest(s.waiting))
    case Lock =>
      var r := s.reader;
      var s' := s.(reader := if r.held.Some? then Draining(r.status, r.value, r.held) else Idle);
      if NtSuccess(r.status) then
        var s'' := s'.(passed := s.passed + [r.value]);
        if r.held.Some? then s''.(latest := zero, unread := 0)
        else s''.(latest := r.value, unread := Min(s.unread + 1, H.MAX_CACHED_UPDATES))
      else if r.status != STATUS_CANCELLED then s'.(latest := zero, unread := 0)
      else s'
    case Complete =>
      var r := s.reader;
      Answer(s.(reader := Draining(r.status, r.value, None)), r.held.value, r.status, r.value)
    case RetrieveNext =>
      var r := s.reader;
      if s.waiting == [] then s.(reader := Idle)
      else s.(reader := Draining(r.status, r.value, First(s.waiting)), waiting := Rest(s.waiting))
  }

  ghost predicate CanRun<V>(s: State<V>, steps: seq<Step<V>>, zero: V)
    decreases |steps|
  {
    steps == [] || (Enabled(s, steps[0]) && CanRun(Next(s, steps[0], zero), steps[1..], zero))
  }

  ghost function Exec<V>(s: State<V>, steps: seq<Step<V>>, zero: V): State<V>
    requires CanRun(s, steps, zero)
    decreases |steps|
  {
    if steps == [] then s else Exec(Next(s, steps[0], zero), steps[1..], zero)
  }

  /** Each delivery was the newest interrupt at its point, and those points are in order. */
  ghost predicate LogFresh<V>(log: seq<Delivery<V>>, passed: seq<V>) {
    && (forall i | 0 <= i < |log| :: 1 <= log[i].at <= |passed| && log[i].value == passed[log[i].at - 1])
    && (forall i, j | 0 <= i < j < |log| :: log[i].at <= log[j].at)
  }

  /** Whatever can still be delivered is the newest interrupt through the lock, and
      so was everything delivered when it was. */
  ghost predicate Fresh<V>(s: State<V>) {
    && (s.unread > 0 ==> s.passed != [] && s.latest == s.passed[|s.passed| - 1])
    && (s.reader.Draining? && NtSuccess(s.reader.status) ==>
          s.passed != [] && s.reader.value == s.passed[|s.passed| - 1])
    && LogFresh(s.log, s.passed)
  }

  lemma LogFreshAppend<V>(log: seq<Delivery<V>>, passed: seq<V>, w: Waiter)
    requires LogFresh(log, passed) && passed != []
    ensures LogFresh(log + [Delivery(w, passed[|passed| - 1], |passed|)], passed)
  {
  }

  lemma LogFreshGrows<V>(log: seq<Delivery<V>>, passed: seq<V>, value: V)
    requires LogFresh(log, passed)
    ensures LogFresh(log, passed + [value])
  {
  }

  lemma FreshStep<V>(s: State<V>, step: Step<V>, zero: V)
    requires Fresh(s) && Enabled(s, step)
    ensures Fresh(Next(s, step, zero))
  {
    match step
    case Ask(w) =>
      if s.unread > 0 {
        LogFreshAppend(s.log, s.passed, w);
      }
    case Lock => LogFreshGrows(s.log, s.passed, s.reader.value);
    case Complete =>
      if NtSuccess(s.reader.status) {
        LogFreshAppend(s.log, s.passed, s.reader.held.value);
      }
    case _ =>
  }

  /** A step delivers at most one value: the newest one through the lock by then. */
  lemma DeliversTheNewest<V>(s: State<V>, step: Step<V>, zero: V)
    requires Fresh(s) && Enabled(s, step) && Next(s, step, zero).log != s.log
    ensures var log := Next(s, step, zero).log;
            && s.passed != [] && |log| == |s.log| + 1 && log[..|s.log|] == s.log
            && log[|s.log|].value == s.passed[|s.passed| - 1]
            && log[|s.log|].at == |s.passed|
  {
  }

  /** For any number of concurrent IOCTLs, each delivered value is the newest
      interrupt that had passed the lock at its linearisation point, and no older
      interrupt is delivered after a newer one. */
  lemma {:induction false} DeliveriesAreFresh<V>(s: State<V>, steps: seq<Step<V>>, zero: V)
    requires Fresh(s) && CanRun(s, steps, zero)
    ensures Fresh(Exec(s, steps, zero))
    decreases |steps|
  {
    if steps != [] {
      FreshStep(s, steps[0], zero);
      DeliveriesAreFresh(Next(s, steps[0], zero), steps[1..], zero);
    }
  }

  const WAITER := H.Waiter(7, H.FLAGS_SIZE)

  /** Unlike the atomic latch, data and a waiter can both be left behind: the IOCTL
      parks between the reader's retrieve and its lock section. */
  lemma BothStranded<V>(value: V, zero: V) returns (steps: seq<Step<V>>)
    ensures CanRun(Init(zero), steps, zero)
    ensures var s := Exec(Init(zero), steps, zero);
            s.unread == 1 && s.latest == value && s.waiting == [WAITER] && s.parking == {} && s.reader.Idle?
  {
    steps := [Ask(WAITER), Retrieve(STATUS_SUCCESS, value), Park(WAITER, true), Lock];
    var s0 := Init(zero);
    var s1 := Next(s0, steps[0], zero);
    var s2 := Next(s1, steps[1], zero);
    var s3 := Next(s2, steps[2], zero);
    var s4 := Next(s3, steps[3], zero);
    assert steps[3..] == [Lock] && steps[2..][1..] == steps[3..] && steps[1..][1..] == steps[2..];
    assert CanRun(s3, steps[3..], zero) && Exec(s3, steps[3..], zero) == s4;
    assert CanRun(s2, steps[2..], zero) && Exec(s2, steps[2..], zero) == s4;
    assert CanRun(s1, steps[1..], zero) && Exec(s1, steps[1..], zero) == s4;
  }

  // ----- Conservation

  function Waiters<V>(log: seq<Delivery<V>>): (r: seq<Waiter>)
    ensures |r| == |log|
    ensures forall i | 0 <= i < |r| :: r[i] == log[i].waiter
  {
    seq(|log|, i requires 0 <= i < |log| => log[i].waiter)
  }

  function HeldBy<V>(r: Reader<V>): Option<Waiter> {
    if r.Idle? then None else r.held
  }

  /** How often w is served, parked, about to park, held by the reader, cancelled or
      failed. */
  function Uses<V>(s: State<V>, w: Waiter): nat {
    Count(Waiters(s.log), w) + Count(s.waiting, w) + (if w in s.parking then 1 else 0)
    + (if HeldBy(s.reader) == Some(w) then 1 else 0) + Count(s.cancelled, w) + Count(s.failed, w)
  }

  ghost predicate Accounted<V>(s: State<V>, w: Waiter) {
    Uses(s, w) == if w in s.asked then 1 else 0
  }

  lemma AnswerUses<V>(s: State<V>, x: Waiter, status: NtStatus, value: V, w: Waiter)
    ensures Uses(Answer(s, x, status, value), w) == Uses(s, w) + if x == w then 1 else 0
  {
    var s', here := Answer(s, x, status, value), if x == w then 1 else 0;
    if HasRoom(x) && NtSuccess(status) {
      assert Count(Waiters(s'.log), w) == Count(Waiters(s.log), w) + here by {
        assert Waiters(s'.log)[..|s.log|] == Waiters(s.log);
      }
    } else {
      assert Count(s'.failed, w) == Count(s.failed, w) + here by { CountAppend(s.failed, x, w); }
    }
  }

  /** The IOCTL's lock section. */
  lemma AskUses<V>(s: State<V>, x: Waiter, zero: V, w: Waiter)
    requires x !in s.asked && Accounted(s, w) && (forall y | y in s.parking :: y in s.asked)
    ensures Accounted(Next(s, Ask(x), zero), w)
  {
    if s.unread > 0 {
      var s0 := s.(asked := s.asked + {x}, latest := zero, unread := 0);
      assert Uses(s0, w) == Uses(s, w);
      AnswerUses(s0, x, STATUS_SUCCESS, s.latest, w);
    }
  }

  lemma ParkUses<V>(s: State<V>, x: Waiter, forwardOk: bool, zero: V, w: Waiter)
    requires x in s.parking
    ensures Uses(Next(s, Park(x, forwardOk), zero), w) == Uses(s, w)
  {
    if forwardOk {
      CountAppend(s.waiting, x, w);
    } else {
      CountAppend(s.failed, x, w);
    }
  }

  lemma CancelUses<V>(s: State<V>, k: nat, zero: V, w: Waiter)
    requires k < |s.waiting|
    ensures Uses(Next(s, CancelAt(k), zero), w) == Uses(s, w)
  {
    var s', here := Next(s, CancelAt(k), zero), if s.waiting[k] == w then 1 else 0;
    assert Count(s.waiting, w) == Count(s'.waiting, w) + here by { CountTakeAt(s.waiting, k, w); }
    assert Count(s'.cancelled, w) == Count(s.cancelled, w) + here by { CountAppend(s.cancelled, s.waiting[k], w); }
  }

  lemma RetrieveUses<V>(s: State<V>, r: Reader<V>, w: Waiter)
    requires HeldBy(s.reader) == None && HeldBy(r) == First(s.waiting)
    ensures Uses(s.(reader := r, waiting := Rest(s.waiting)), w) == Uses(s, w)
  {
    if s.waiting != [] {
      CountTail(s.waiting, w);
    }
  }

  lemma CompleteUses<V>(s: State<V>, zero: V, w: Waiter)
    requires Enabled(s, Complete)
    ensures Uses(Next(s, Complete, zero), w) == Uses(s, w)
  {
    var r := s.reader;
    var s0 := s.(reader := Draining(r.status, r.value, None));
    assert Uses(s, w) == Uses(s0, w) + if r.held.value == w then 1 else 0;
    AnswerUses(s0, r.held.value, r.status, r.value, w);
  }

  /** Every step but the asking ones moves an IOCTL from place to place. */
  lemma UsesStep<V>(s: State<V>, step: Step<V>, zero: V, w: Waiter)
    requires Enabled(s, step) && !step.Ask?
    ensures Uses(Next(s, step, zero), w) == Uses(s, w) && Next(s, step, zero).asked == s.asked
  {
    match step
    case Park(x, forwardOk) => ParkUses(s, x, forwardOk, zero, w);
    case CancelAt(k) => CancelUses(s, k, zero, w);
    case Retrieve(status, value) => RetrieveUses(s, Retrieved(status, value, First(s.waiting)), w);
    case Lock => LockUses(s, zero, w);
    case Complete => CompleteUses(s, zero, w);
    case RetrieveNext =>
      if s.waiting != [] {
        RetrieveUses(s, Draining(s.reader.status, s.reader.value, First(s.waiting)), w);
      }
  }

  lemma LockUses<V>(s: State<V>, zero: V, w: Waiter)
    requires Enabled(s, Lock)
    ensures Uses(Next(s, Lock, zero), w) == Uses(s, w)
  {
  }

  ghost predicate ParkingAsked<V>(s: State<V>) {
    forall y | y in s.parking :: y in s.asked
  }

  lemma ParkingStep<V>(s: State<V>, step: Step<V>, zero: V)
    requires Enabled(s, step) && ParkingAsked(s)
    ensures ParkingAsked(Next(s, step, zero))
  {
  }

  lemma {:induction false} AccountedRun<V>(s: State<V>, steps: seq<Step<V>>, zero: V, w: Waiter)
    requires CanRun(s, steps, zero) && Accounted(s, w) && ParkingAsked(s)
    ensures Accounted(Exec(s, steps, zero), w)
    decreases |steps|
  {
    if steps != [] {
      ParkingStep(s, steps[0], zero);
      if steps[0].Ask? {
        AskUses(s, steps[0].waiter, zero, w);
      } else {
        UsesStep(s, steps[0], zero, w);
      }
      AccountedRun(Next(s, steps[0], zero), steps[1..], zero, w);
    }
  }

  /** In every interleaving each IOCTL so far is in exactly one of those places, and
      nothing else is anywhere: served once, with room for the value, or failed once,
      or cancelled once, or still on its way. */
  lemma Conservation<V>(steps: seq<Step<V>>, zero: V, w: Waiter)
    requires CanRun(Init(zero), steps, zero)
    ensures var s := Exec(Init(zero), steps, zero);
            Uses(s, w) == if w in s.asked then 1 else 0
  {
    AccountedRun(Init(zero), steps, zero, w);
  }

  // ----- One interrupt's completion, run without interruption, serves everyone

  function Drain<V>(s: State<V>, zero: V): State<V>
    requires s.reader.Draining? && s.reader.held.Some?
    decreases |s.waiting|
  {
    var s' := Next(Next(s, Complete, zero), RetrieveNext, zero);
    if s'.reader.Idle? then s' else Drain(s', zero)
  }

  /** One delivery for each waiter with room, if the reader succeeded. */
  function Served<V>(ws: seq<Waiter>, status: NtStatus, value: V, at: nat): seq<Delivery<V>> {
    if ws == [] then []
    else
      (if HasRoom(ws[0]) && NtSuccess(status) then [Delivery(ws[0], value, at)] else [])
      + Served(ws[1..], status, value, at)
  }

  /** The other waiters. */
  function Refused(ws: seq<Waiter>, status: NtStatus): seq<Waiter> {
    if ws == [] then []
    else (if HasRoom(ws[0]) && NtSuccess(status) then [] else [ws[0]]) + Refused(ws[1..], status)
  }

  /** The state with ws completed by the reader. */
  function Finished<V>(s: State<V>, ws: seq<Waiter>, status: NtStatus, value: V): State<V> {
    s.(log := s.log + Served(ws, status, value, |s.passed|), failed := s.failed + Refused(ws, status),
       out := s.out + H.Broadcast(ws, status, value))
  }

  lemma ServedOne<V>(w: Waiter, status: NtStatus, value: V, at: nat)
    ensures Served([w], status, value, at) ==
            if HasRoom(w) && NtSuccess(status) then [Delivery(w, value, at)] else []
    ensures Refused([w], status) == if HasRoom(w) && NtSuccess(status) then [] else [w]
    ensures H.Broadcast([w], status, value) == [H.Complete(w, status, value)]
  {
    assert [w][1..] == [];
  }

  lemma ServedHead<V>(w: Waiter, ws: seq<Waiter>, status: NtStatus, value: V, at: nat)
    ensures Served([w] + ws, status, value, at) == Served([w], status, value, at) + Served(ws, status, value, at)
    ensures Refused([w] + ws, status) == Refused([w], status) + Refused(ws, status)
  {
    ServedOne(w, status, value, at);
    assert ([w] + ws)[0] == w && ([w] + ws)[1..] == ws;
  }

  lemma BroadcastHead<V>(w: Waiter, ws: seq<Waiter>, status: NtStatus, value: V)
    ensures H.Broadcast([w] + ws, status, value) == H.Broadcast([w], status, value) + H.Broadcast(ws, status, value)
  {
    hide H.Complete;
  }

  lemma FinishedOne<V>(s: State<V>, w: Waiter, status: NtStatus, value: V)
    ensures Finished(s, [w], status, value) == Answer(s, w, status, value)
  {
    hide Served, Refused, H.Broadcast, H.Complete;
    ServedOne(w, status, value, |s.passed|);
    assert s.log + [] == s.log && s.failed + [] == s.failed;
  }

  lemma FinishedHead<V>(s: State<V>, w: Waiter, ws: seq<Waiter>, status: NtStatus, value: V)
    ensures Finished(Finished(s, [w], status, value), ws, status, value) == Finished(s, [w] + ws, status, value)
  {
    hide Served, Refused, H.Broadcast;
    ServedHead(w, ws, status, value, |s.passed|);
    BroadcastHead(w, ws, status, value);
    Reassociate(s.log, Served([w], status, value, |s.passed|), Served(ws, status, value, |s.passed|));
    Reassociate(s.failed, Refused([w], status), Refused(ws, status));
    Reassociate(s.out, H.Broadcast([w], status, value), H.Broadcast(ws, status, value));
  }

  /** Uninterrupted, the drain completes the request it holds and all parked ones, in
      order, whatever the reader's status. */
  lemma {:induction false} DrainServesAll<V>(s: State<V>, zero: V)
    requires s.reader.Draining? && s.reader.held.Some?
    ensures var r, ws := s.reader, [s.reader.held.value] + s.waiting;
            Drain(s, zero) == Finished(s, ws, r.status, r.value).(reader := Idle, waiting := [])
    decreases |s.waiting|
  {
    hide Finished, Answer;
    var r, w := s.reader, s.reader.held.value;
    var s0 := Next(s, Complete, zero);
    FinishedOne(s, w, r.status, r.value);
    FinishedFrame(s, [w], r.status, r.value);
    AnswerFrame(s, w, r.status, r.value);
    if s.waiting == [] {
      assert [w] + s.waiting == [w];
    } else {
      var s' := Next(s0, RetrieveNext, zero);
      DrainServesAll(s', zero);
      assert [s.waiting[0]] + s.waiting[1..] == s.waiting;
      FinishedHead(s, w, s.waiting, r.status, r.value);
      FinishedReader(Finished(s, [w], r.status, r.value), s'.reader, s'.waiting, s.waiting, r.status, r.value);
    }
  }

  lemma AnswerFrame<V>(s: State<V>, w: Waiter, status: NtStatus, value: V)
    ensures var reader := Draining(status, value, None);
            Answer(s.(reader := reader), w, status, value) == Answer(s, w, status, value).(reader := reader)
    ensures Answer(s, w, status, value).waiting == s.waiting
  {
  }

  lemma FinishedFrame<V>(s: State<V>, ws: seq<Waiter>, status: NtStatus, value: V)
    ensures Finished(s, ws, status, value).waiting == s.waiting && Finished(s, ws, status, value).passed == s.passed
  {
  }

  lemma FinishedReader<V>(s: State<V>, reader: Reader<V>, waiting: seq<Waiter>, ws: seq<Waiter>, status: NtStatus,
                          value: V)
    ensures Finished(s.(reader := reader, waiting := waiting), ws, status, value) ==
            Finished(s, ws, status, value).(reader := reader, waiting := waiting)
  {
  }

  /** Stranded waiters are all completed by the very next interrupt: those with room
      receive it, the others fail. */
  lemma NextInterruptServesAll<V>(s: State<V>, status: NtStatus, value: V, zero: V)
    requires s.reader.Idle? && s.waiting != [] && NtSuccess(status)
    ensures var s' := Drain(Next(Next(s, Retrieve(status, value), zero), Lock, zero), zero);
            && s'.waiting == [] && s'.unread == 0 && s'.reader.Idle?
            && s'.log == s.log + Served(s.waiting, status, value, |s.passed| + 1)
            && s'.failed == s.failed + Refused(s.waiting, status)
  {
    DrainServesAll(Next(Next(s, Retrieve(status, value), zero), Lock, zero), zero);
    assert [s.waiting[0]] + s.waiting[1..] == s.waiting;
  }

  // ----- Run back to back, the steps are the atomic operations

  function AsLatch<V>(s: State<V>, accepting: bool): H.Latch<V> {
    H.Latch(s.latest, s.unread, s.waiting, accepting)
  }

  lemma AskUninterrupted<V>(s: State<V>, w: Waiter, accepting: bool, zero: V)
    requires w !in s.asked && w !in s.parking
    ensures var s1 := Next(s, Ask(w), zero);
            var s2 := if w in s1.parking then Next(s1, Park(w, accepting), zero) else s1;
            var (l, out) := H.Step(AsLatch(s, accepting), H.GetMessage(w), zero);
            && AsLatch(s2, accepting) == l && s2.out == s.out + out
            && s2.parking == s.parking && s2.reader == s.reader && s2.asked == s.asked + {w}
  {
    assert s.parking + {w} - {w} == s.parking;
  }

  lemma CancelIsAtomic<V>(s: State<V>, k: nat, accepting: bool, zero: V)
    requires k < |s.waiting|
    ensures var s', (l, out) := Next(s, CancelAt(k), zero), H.Step(AsLatch(s, accepting), H.CancelAt(k), zero);
            && AsLatch(s', accepting) == l && s'.out == s.out + out
            && s'.parking == s.parking && s'.reader == s.reader && s'.asked == s.asked
  {
  }

  /** The retrieve, the lock section and the drain of one reader completion. */
  function Completion<V>(s: State<V>, status: NtStatus, value: V, zero: V): State<V>
    requires s.reader.Idle?
  {
    var s' := Next(Next(s, Retrieve(status, value), zero), Lock, zero);
    if s'.reader.Idle? then s' else Drain(s', zero)
  }

  lemma CompletionUninterrupted<V>(s: State<V>, status: NtStatus, value: V, accepting: bool, zero: V)
    requires s.reader.Idle?
    ensures var s' := Completion(s, status, value, zero);
            var (l, out) := H.Step(AsLatch(s, accepting), H.ReaderDone(status, value), zero);
            && AsLatch(s', accepting) == l && s'.out == s.out + out
            && s'.parking == s.parking && s'.reader == Idle && s'.asked == s.asked
  {
    if s.waiting != [] {
      DrainServesAll(Next(Next(s, Retrieve(status, value), zero), Lock, zero), zero);
      assert [s.waiting[0]] + s.waiting[1..] == s.waiting;
    } else {
      assert H.Broadcast(s.waiting, status, value) == [];
    }
  }

  lemma {:induction false} ExecConcat<V>(s: State<V>, a: seq<Step<V>>, b: seq<Step<V>>, zero: V)
    requires CanRun(s, a, zero) && CanRun(Exec(s, a, zero), b, zero)
    ensures CanRun(s, a + b, zero) && Exec(s, a + b, zero) == Exec(Exec(s, a, zero), b, zero)
    decreases |a|
  {
    hide Next, Enabled;
    if a == [] {
      assert a + b == b;
    } else {
      ExecConcat(Next(s, a[0], zero), a[1..], b, zero);
      assert (a + b)[1..] == a[1..] + b;
    }
  }

  lemma RunCons<V>(s: State<V>, step: Step<V>, steps: seq<Step<V>>, zero: V)
    requires Enabled(s, step) && CanRun(Next(s, step, zero), steps, zero)
    ensures CanRun(s, [step] + steps, zero)
    ensures Exec(s, [step] + steps, zero) == Exec(Next(s, step, zero), steps, zero)
  {
    assert ([step] + steps)[1..] == steps;
  }

  lemma {:induction false} DrainRun<V>(s: State<V>, zero: V) returns (steps: seq<Step<V>>)
    requires s.reader.Draining? && s.reader.held.Some?
    ensures CanRun(s, steps, zero) && Exec(s, steps, zero) == Drain(s, zero)
    decreases |s.waiting|
  {
    var s0 := Next(s, Complete, zero);
    var s' := Next(s0, RetrieveNext, zero);
    var rest: seq<Step<V>> := [];
    if !s'.reader.Idle? {
      rest := DrainRun(s', zero);
    }
    RunCons(s0, RetrieveNext, rest, zero);
    RunCons(s, Complete, [RetrieveNext] + rest, zero);
    steps := [Complete] + ([RetrieveNext] + rest);
  }

  /** Some steps here take the atomic operation. */
  lemma OpUninterrupted<V>(s: State<V>, op: H.Op<V>, zero: V) returns (steps: seq<Step<V>>)
    requires s.reader.Idle? && s.parking == {} && (op.GetMessage? ==> op.waiter !in s.asked)
    ensures CanRun(s, steps, zero)
    ensures var s', (l, out) := Exec(s, steps, zero), H.Step(AsLatch(s, true), op, zero);
            && AsLatch(s', true) == l && s'.out == s.out + out && s'.reader.Idle? && s'.parking == {}
            && s'.asked == s.asked + if op.GetMessage? then {op.waiter} else {}
  {
    match op
    case GetMessage(w) =>
      AskUninterrupted(s, w, true, zero);
      var s1 := Next(s, Ask(w), zero);
      var rest: seq<Step<V>> := [];
      if w in s1.parking {
        assert CanRun(Next(s1, Park(w, true), zero), [], zero);
        RunCons(s1, Park(w, true), [], zero);
        rest := [Park(w, true)] + [];
      }
      RunCons(s, Ask(w), rest, zero);
      steps := [Ask(w)] + rest;
    case ReaderDone(status, value) =>
      CompletionUninterrupted(s, status, value, true, zero);
      var s1 := Next(s, Retrieve(status, value), zero);
      var s2 := Next(s1, Lock, zero);
      var rest: seq<Step<V>> := [];
      if !s2.reader.Idle? {
        rest := DrainRun(s2, zero);
      }
      RunCons(s1, Lock, rest, zero);
      RunCons(s, Retrieve(status, value), [Lock] + rest, zero);
      steps := [Retrieve(status, value)] + ([Lock] + rest);
    case CancelAt(k) =>
      steps := [];
      if k < |s.waiting| {
        CancelIsAtomic(s, k, true, zero);
        assert CanRun(Next(s, CancelAt(k), zero), [], zero);
        RunCons(s, CancelAt(k), [], zero);
        steps := [CancelAt(k)] + [];
      }
  }

  /** Every run of the atomic host latch, with all its completions, is the run of this
      machine in which no operation is interrupted. */
  lemma {:induction false} AtomicRuns<V>(ops: seq<H.Op<V>>, zero: V) returns (steps: seq<Step<V>>)
    requires forall i, j | 0 <= i < j < |H.Asked(ops)| :: H.Asked(ops)[i] != H.Asked(ops)[j]
    ensures CanRun(Init(zero), steps, zero)
    ensures var s := Exec(Init(zero), steps, zero);
            && AsLatch(s, true) == H.Run(ops, zero).latch && s.out == H.Run(ops, zero).out
            && s.reader.Idle? && s.parking == {} && forall w | w in s.asked :: w in H.Asked(ops)
  {
    hide Next, Enabled, H.Step;
    if ops == [] {
      steps := [];
    } else {
      var front, op := ops[..|ops| - 1], ops[|ops| - 1];
      var asked, n := H.Asked(ops), |H.Asked(front)|;
      assert asked[..n] == H.Asked(front);
      assert forall i | 0 <= i < n :: H.Asked(front)[i] == asked[i];
      if op.GetMessage? {
        assert asked[n] == op.waiter;
      }
      steps := AtomicRuns(front, zero);
      var s := Exec(Init(zero), steps, zero);
      var more := OpUninterrupted(s, op, zero);
      ExecConcat(Init(zero), steps, more, zero);
      AcceptingStays(ops, zero);
      steps := steps + more;
    }
  }

  lemma AcceptingStays<V>(ops: seq<H.Op<V>>, zero: V)
    requires ops != []
    ensures var s, s' := H.Run(ops[..|ops| - 1], zero), H.Run(ops, zero);
            var (l, out) := H.Step(s.latch, ops[|ops| - 1], zero);
            s'.latch == l && s'.out == s.out + out
  {
  }

  // ----- What was received, in the completions

  /** The waiters completed with a value, and the values. */
  function Values<V>(out: seq<H.Completion<V>>): seq<(Waiter, V)> {
    if out == [] then []
    else
      var c := out[|out| - 1];
      Values(out[..|out| - 1]) + (if c.Done? then [(c.waiter, c.value)] else [])
  }

  function Received<V>(log: seq<Delivery<V>>): (r: seq<(Waiter, V)>)
    ensures |r| == |log|
    ensures forall i | 0 <= i < |r| :: r[i] == (log[i].waiter, log[i].value)
  {
    seq(|log|, i requires 0 <= i < |log| => (log[i].waiter, log[i].value))
  }

  lemma ValuesAppend<V>(out: seq<H.Completion<V>>, c: H.Completion<V>)
    ensures Values(out + [c]) == Values(out) + if c.Done? then [(c.waiter, c.value)] else []
  {
    assert (out + [c])[..|out|] == out;
  }

  lemma AnswerRecorded<V>(s: State<V>, w: Waiter, status: NtStatus, value: V)
    requires Values(s.out) == Received(s.log)
    ensures var s' := Answer(s, w, status, value); Values(s'.out) == Received(s'.log)
  {
    ValuesAppend(s.out, H.Complete(w, status, value));
    var log := s.log + [Delivery(w, value, |s.passed|)];
    assert Received(log) == Received(s.log) + [(w, value)];
  }

  lemma RecordedStep<V>(s: State<V>, step: Step<V>, zero: V)
    requires Enabled(s, step) && Values(s.out) == Received(s.log)
    ensures var s' := Next(s, step, zero); Values(s'.out) == Received(s'.log)
  {
    hide Values;
    match step
    case Ask(w) =>
      if s.unread > 0 {
        AnswerRecorded(s.(asked := s.asked + {w}, latest := zero, unread := 0), w, STATUS_SUCCESS, s.latest);
      }
    case Park(w, _) => ValuesAppend(s.out, H.Failed(w, STATUS_WDF_BUSY, 0));
    case CancelAt(k) => ValuesAppend(s.out, H.Failed(s.waiting[k], STATUS_CANCELLED, 0));
    case Complete =>
      var r := s.reader;
      AnswerRecorded(s.(reader := Draining(r.status, r.value, None)), r.held.value, r.status, r.value);
    case _ =>
  }

  /** In every interleaving the deliveries are the completions with a value, in order. */
  lemma {:induction false} Recorded<V>(s: State<V>, steps: seq<Step<V>>, zero: V)
    requires CanRun(s, steps, zero) && Values(s.out) == Received(s.log)
    ensures Values(Exec(s, steps, zero).out) == Received(Exec(s, steps, zero).log)
    decreases |steps|
  {
    hide Next, Enabled, Values, Received;
    if steps != [] {
      RecordedStep(s, steps[0], zero);
      Recorded(Next(s, steps[0], zero), steps[1..], zero);
    }
  }

  // ----- The mailbox against its history

  /** The values cached since the mailbox was last emptied: by an IOCTL that takes one, a
      successful lock section with a waiter, or a failure other than a cancellation. */
  function Cached<V>(s: State<V>, step: Step<V>, cached: seq<V>): seq<V> {
    match step
    case Ask(_) => if s.unread > 0 then [] else cached
    case Lock =>
      if !s.reader.Retrieved? then cached
      else if NtSuccess(s.reader.status) then (if s.reader.held.Some? then [] else cached + [s.reader.value])
      else if s.reader.status == STATUS_CANCELLED then cached
      else []
    case _ => cached
  }

  ghost function CachedAfter<V>(s: State<V>, steps: seq<Step<V>>, cached: seq<V>, zero: V): seq<V>
    requires CanRun(s, steps, zero)
    decreases |steps|
  {
    if steps == [] then cached
    else CachedAfter(Next(s, steps[0], zero), steps[1..], Cached(s, steps[0], cached), zero)
  }

  ghost predicate Counted<V>(s: State<V>, cached: seq<V>, zero: V) {
    && s.unread == Min(|cached|, 100)
    && s.latest == if cached == [] then zero else cached[|cached| - 1]
  }

  lemma CountedStep<V>(s: State<V>, step: Step<V>, cached: seq<V>, zero: V)
    requires Counted(s, cached, zero) && Enabled(s, step)
    ensures Counted(Next(s, step, zero), Cached(s, step, cached), zero)
  {
  }

  /** In every interleaving the counter is the number of those values saturated at 100,
      and latestStatus the last of them, or 0. */
  lemma {:induction false} MailboxHistory<V>(s: State<V>, steps: seq<Step<V>>, cached: seq<V>, zero: V)
    requires Counted(s, cached, zero) && CanRun(s, steps, zero)
    ensures var s', all := Exec(s, steps, zero), CachedAfter(s, steps, cached, zero);
            s'.unread == Min(|all|, 100) && s'.latest == if all == [] then zero else all[|all| - 1]
    decreases |steps|
  {
    hide Next, Enabled, Cached;
    if steps != [] {
      CountedStep(s, steps[0], cached, zero);
      MailboxHistory(Next(s, steps[0], zero), steps[1..], Cached(s, steps[0], cached), zero);
    }
  }

  // ----- ... and whatever interrupts that completion

  /** The reader is at work in every state before the last. */
  ghost predicate Busy<V>(s: State<V>, steps: seq<Step<V>>, zero: V)
    requires CanRun(s, steps, zero)
    decreases |steps|
  {
    steps == [] || (!s.reader.Idle? && Busy(Next(s, steps[0], zero), steps[1..], zero))
  }

  /** w has received the value, after the first n deliveries, or failed if it has no
      room or the reader failed; or it was cancelled. */
  ghost predicate Settled<V>(s: State<V>, w: Waiter, n: nat, status: NtStatus, value: V) {
    || w in s.cancelled
    || if HasRoom(w) && NtSuccess(status) then
         exists i | n <= i < |s.log| :: s.log[i].waiter == w && s.log[i].value == value
       else w in s.failed
  }

  /** A waiter of the completion under way: still parked, held, or settled. */
  ghost predicate UnderWay<V>(s: State<V>, w: Waiter, n: nat, status: NtStatus, value: V) {
    && n <= |s.log|
    && (w in s.waiting || HeldBy(s.reader) == Some(w) || Settled(s, w, n, status, value))
    && (!s.reader.Idle? ==> s.reader.status == status && s.reader.value == value)
    && (s.reader.Retrieved? ==> s.reader.held.Some?)
    && (s.reader.Idle? ==> s.waiting == [])
  }

  lemma SettledStays<V>(s: State<V>, step: Step<V>, zero: V, w: Waiter, n: nat, status: NtStatus, value: V)
    requires Enabled(s, step) && Settled(s, w, n, status, value)
    ensures Settled(Next(s, step, zero), w, n, status, value)
  {
    var s' := Next(s, step, zero);
    if w !in s.cancelled && HasRoom(w) && NtSuccess(status) {
      var i :| n <= i < |s.log| && s.log[i].waiter == w && s.log[i].value == value;
      assert s'.log[i] == s.log[i];
    }
  }

  lemma UnderWayStep<V>(s: State<V>, step: Step<V>, zero: V, w: Waiter, n: nat, status: NtStatus, value: V)
    requires Enabled(s, step) && !s.reader.Idle? && UnderWay(s, w, n, status, value)
    ensures UnderWay(Next(s, step, zero), w, n, status, value)
  {
    var s' := Next(s, step, zero);
    if Settled(s, w, n, status, value) {
      SettledStays(s, step, zero, w, n, status, value);
    } else if step.Complete? && HeldBy(s.reader) == Some(w) {
      if HasRoom(w) && NtSuccess(status) {
        assert s'.log[|s.log|] == Delivery(w, value, |s.passed|);
      }
    }
  }

  lemma {:induction false} UnderWayRun<V>(s: State<V>, steps: seq<Step<V>>, zero: V,
                                          w: Waiter, n: nat, status: NtStatus, value: V)
    requires CanRun(s, steps, zero) && Busy(s, steps, zero) && UnderWay(s, w, n, status, value)
    ensures UnderWay(Exec(s, steps, zero), w, n, status, value)
    decreases |steps|
  {
    if steps != [] {
      UnderWayStep(s, steps[0], zero, w, n, status, value);
      UnderWayRun(Next(s, steps[0], zero), steps[1..], zero, w, n, status, value);
    }
  }

  /** However IOCTLs and cancellations interleave with the completion of an interrupt:
      when the reader is idle again nobody waits, and every waiter that was parked at
      its retrieve has received the value, or failed for want of room or by the
      reader's failure, or was cancelled. */
  lemma NextInterruptInRun<V>(s: State<V>, status: NtStatus, value: V, steps: seq<Step<V>>, zero: V, w: Waiter)
    requires s.reader.Idle? && w in s.waiting
    requires var s1 := Next(s, Retrieve(status, value), zero);
             CanRun(s1, steps, zero) && Busy(s1, steps, zero) && Exec(s1, steps, zero).reader.Idle?
    ensures var s' := Exec(Next(s, Retrieve(status, value), zero), steps, zero);
            s'.waiting == [] && Settled(s', w, |s.log|, status, value)
  {
    UnderWayRun(Next(s, Retrieve(status, value), zero), steps, zero, w, |s.log|, status, value);
  }
}
