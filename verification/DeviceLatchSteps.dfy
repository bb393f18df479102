/** The device latch at its real granularity.  A raise retrieves a deferred URB and
    completes it or, finding none, caches its value; a submission takes the cached
    value and completes its URB with it or, finding none, defers the URB.  Raises come
    from one sequential dispatch queue and URBs from another, so at most one of each
    is between its two steps, and sleeps, wakes and cancellations happen anywhere. */
module DeviceLatchSteps {
  import opened Counting
  import opened Wdf
  import D = DeviceLatch

  type Urb = D.Urb

  /** Raised values go by their number, counted from 1. */
  type Completion = D.Completion<nat>

  datatype Raiser =
    | RaiserIdle
    | Holding(urb: Urb)               // retrieved a URB, about to complete it
    | Caching                         // found none, about to cache the value

  datatype Submitter =
    | SubmitterIdle
    | Serving(urb: Urb, no: nat)      // took the cached value, about to complete the URB
    | Parking(urb: Urb)               // found none, about to defer the URB

  datatype State = State(
    latest: nat,
    unread: nat,
    deferred: seq<Urb>,
    accepting: bool,
    raiser: Raiser,
    submitter: Submitter,
    raised: seq<uint32>,              // every value raised, the one under way included
    out: seq<Completion>)             // URBs completed so far

  const INIT := State(0, 0, [], true, RaiserIdle, SubmitterIdle, [], [])

  datatype Step =
    | RaiseLook(value: uint32)
    | RaiseComplete
    | RaiseCache
    | SubmitTake(urb: Urb)
    | SubmitComplete
    | SubmitPark
    | CancelAt(k: nat)
    | Sleep
    | Wake

  predicate Enabled(s: State, step: Step) {
    match step
    case RaiseLook(_) => s.raiser.RaiserIdle?
    case RaiseComplete => s.raiser.Holding?
    case RaiseCache => s.raiser.Caching?
    case SubmitTake(_) => s.submitter.SubmitterIdle?
    case SubmitComplete => s.submitter.Serving?
    case SubmitPark => s.submitter.Parking?
    case CancelAt(k) => k < |s.deferred|
    case Sleep => true
    case Wake => true
  }

  function Next(s: State, step: Step): State
    requires Enabled(s, step)
  {
    match step
    case RaiseLook(value) =>
      var s' := s.(raised := s.raised + [value]);
      if s.deferred != [] then s'.(raiser := Holding(s.deferred[0]), deferred := s.deferred[1..])
      else s'.(raiser := Caching)
    case RaiseComplete =>
      s.(raiser := RaiserIdle, out := s.out + [D.Complete(s.raiser.urb, |s.raised|)])
    case RaiseCache =>
      s.(raiser := RaiserIdle, latest := |s.raised|, unread := Min(s.unread + 1, D.MAX_CACHED_UPDATES))
    case SubmitTake(urb) =>
      s.(latest := 0, unread := 0, submitter := if s.unread > 0 then Serving(urb, s.latest) else Parking(urb))
    case SubmitComplete =>
      s.(submitter := SubmitterIdle, out := s.out + [D.Complete(s.submitter.urb, s.submitter.no)])
    case SubmitPark =>
      var s' := s.(submitter := SubmitterIdle);
      if s.accepting then s'.(deferred := s.deferred + [s.submitter.urb])
      else s'.(out := s.out + [D.Failed(s.submitter.urb, STATUS_WDF_BUSY)])
    case CancelAt(k) =>
      s.(deferred := s.deferred[..k] + s.deferred[k + 1..], out := s.out + [D.Failed(s.deferred[k], STATUS_CANCELLED)])
    case Sleep => s.(accepting := false, deferred := [], out := s.out + D.Cancelled(s.deferred))
    case Wake => s.(accepting := true)
  }

  ghost predicate CanRun(s: State, steps: seq<Step>)
    decreases |steps|
  {
    steps == [] || (Enabled(s, steps[0]) && CanRun(Next(s, steps[0]), steps[1..]))
  }

  ghost function Exec(s: State, steps: seq<Step>): State
    requires CanRun(s, steps)
    decreases |steps|
  {
    if steps == [] then s else Exec(Next(s, steps[0]), steps[1..])
  }

  lemma {:induction false} ExecAppend(s: State, steps: seq<Step>, last: Step)
    requires CanRun(s, steps) && Enabled(Exec(s, steps), last)
    ensures CanRun(s, steps + [last]) && Exec(s, steps + [last]) == Next(Exec(s, steps), last)
    decreases |steps|
  {
    if steps == [] {
      assert [last][1..] == [];
    } else {
      ExecAppend(Next(s, steps[0]), steps[1..], last);
      assert (steps + [last])[1..] == steps[1..] + [last];
    }
  }

  // ----- Run back to back, the two steps are the atomic operation

  function AsLatch(s: State): D.Latch<nat> {
    D.Latch(s.latest, s.unread, s.deferred, s.accepting, s.accepting)
  }

  lemma RaiseUninterrupted(s: State, value: uint32)
    requires s.raiser.RaiserIdle?
    ensures var s1 := Next(s, RaiseLook(value));
            var s2 := Next(s1, if s1.raiser.Holding? then RaiseComplete else RaiseCache);
            var (l, out) := D.Step(AsLatch(s), D.Raise(|s.raised| + 1), 0);
            AsLatch(s2) == l && s2.out == s.out + out && s2.raiser == RaiserIdle
  {
  }

  lemma SubmitUninterrupted(s: State, urb: Urb)
    requires s.submitter.SubmitterIdle?
    ensures var s1 := Next(s, SubmitTake(urb));
            var s2 := Next(s1, if s1.submitter.Serving? then SubmitComplete else SubmitPark);
            var (l, out) := D.Step(AsLatch(s), D.Submit(urb), 0);
            AsLatch(s2) == l && s2.out == s.out + out && s2.submitter == SubmitterIdle
  {
  }

  /** Cancellations, sleeps and wakes are single steps here too. */
  lemma SingleSteps(s: State, k: nat)
    ensures k < |s.deferred| ==>
              var s', (l, out) := Next(s, CancelAt(k)), D.Step(AsLatch(s), D.CancelAt(k), 0);
              s' == s.(deferred := l.deferred, out := s.out + out) && AsLatch(s') == l
    ensures var s', (l, out) := Next(s, Sleep), D.Step(AsLatch(s), D.Sleep, 0);
            s' == s.(accepting := false, deferred := [], out := s.out + out) && AsLatch(s') == l
    ensures var s', (l, out) := Next(s, Wake), D.Step(AsLatch(s), D.Wake, 0);
            s' == s.(accepting := true) && out == [] && AsLatch(s') == l
  {
  }

  // ----- Where the URBs are

  /** How often urb is deferred, completed, or between the two steps of a raise or of
      its own submission. */
  function UrbUses(s: State, urb: Urb): nat {
    Count(s.deferred, urb) + Count(D.Urbs(s.out), urb)
    + (if s.raiser.Holding? && s.raiser.urb == urb then 1 else 0)
    + (if !s.submitter.SubmitterIdle? && s.submitter.urb == urb then 1 else 0)
  }

  lemma OutUses(out: seq<Completion>, c: Completion, urb: Urb)
    ensures Count(D.Urbs(out + [c]), urb) == Count(D.Urbs(out), urb) + if c.urb == urb then 1 else 0
  {
    D.UrbsConcat(out, [c], urb);
    D.OneUrb(c, urb);
  }

  lemma CancelUses(s: State, k: nat, urb: Urb)
    requires k < |s.deferred|
    ensures UrbUses(Next(s, CancelAt(k)), urb) == UrbUses(s, urb)
  {
    hide D.Urbs;
    CountTakeAt(s.deferred, k, urb);
    OutUses(s.out, D.Failed(s.deferred[k], STATUS_CANCELLED), urb);
  }

  lemma UrbUsesStep(s: State, step: Step, urb: Urb)
    requires Enabled(s, step)
    ensures UrbUses(Next(s, step), urb) == UrbUses(s, urb) + if step == SubmitTake(urb) then 1 else 0
  {
    hide D.Urbs;
    match step
    case RaiseLook(_) =>
      if s.deferred != [] {
        CountTail(s.deferred, urb);
      }
    case RaiseComplete =>
      OutUses(s.out, D.Complete(s.raiser.urb, |s.raised|), urb);
    case SubmitComplete =>
      OutUses(s.out, D.Complete(s.submitter.urb, s.submitter.no), urb);
    case SubmitPark =>
      CountAppend(s.deferred, s.submitter.urb, urb);
      OutUses(s.out, D.Failed(s.submitter.urb, STATUS_WDF_BUSY), urb);
    case CancelAt(k) => CancelUses(s, k, urb);
    case Sleep =>
      var out: seq<Completion> := D.Cancelled(s.deferred);
      D.CancelledUrbs(s.deferred, out);
      D.UrbsConcat(s.out, out, urb);
    case _ =>
  }

  /** The URBs that steps submit. */
  function Submitted(steps: seq<Step>): seq<Urb> {
    if steps == [] then []
    else (if steps[0].SubmitTake? then [steps[0].urb] else []) + Submitted(steps[1..])
  }

  lemma SubmittedHead(steps: seq<Step>, urb: Urb)
    requires steps != []
    ensures Count(Submitted(steps), urb) ==
            Count(Submitted(steps[1..]), urb) + if steps[0] == SubmitTake(urb) then 1 else 0
  {
    if steps[0].SubmitTake? {
      CountConcat([steps[0].urb], Submitted(steps[1..]), urb);
      D.CountOne(steps[0].urb, urb);
    } else {
      assert [] + Submitted(steps[1..]) == Submitted(steps[1..]);
    }
  }

  /** In every interleaving each URB submitted is in exactly one of those places, and no
      other URB is anywhere. */
  lemma {:induction false} UrbConservation(s: State, steps: seq<Step>, urb: Urb)
    requires CanRun(s, steps)
    ensures UrbUses(Exec(s, steps), urb) == UrbUses(s, urb) + Count(Submitted(steps), urb)
    ensures UrbUses(INIT, urb) == 0
    decreases |steps|
  {
    hide Next, Enabled;
    if steps != [] {
      UrbUsesStep(s, steps[0], urb);
      SubmittedHead(steps, urb);
      UrbConservation(Next(s, steps[0]), steps[1..], urb);
    }
  }

  // ----- How far cached data and deferred URBs can miss each other

  /** The strengthening over both program counters that makes the bound inductive. */
  predicate Paired(s: State) {
    && (s.unread <= 1 || |s.deferred| <= 1)
    && (s.raiser.Caching? ==> s.unread == 0 || |s.deferred| <= 1)
    && (s.submitter.Parking? ==> s.deferred == [] || s.unread <= 1)
    && (s.raiser.Caching? && s.submitter.Parking? ==> s.unread == 0 || s.deferred == [])
  }

  lemma PairedStep(s: State, step: Step)
    requires Paired(s) && Enabled(s, step)
    ensures Paired(Next(s, step))
  {
  }

  /** In every interleaving, if data is cached while URBs are deferred, then it is a
      single update or there is a single URB. */
  lemma {:induction false} AtMostOneMissed(s: State, steps: seq<Step>)
    requires Paired(s) && CanRun(s, steps)
    ensures Paired(Exec(s, steps))
    ensures Min(Exec(s, steps).unread, |Exec(s, steps).deferred|) <= 1
    decreases |steps|
  {
    if steps != [] {
      PairedStep(s, steps[0]);
      AtMostOneMissed(Next(s, steps[0]), steps[1..]);
    }
  }

  const URB := D.Urb(0, Some(D.FLAGS_SIZE))

  /** With a raise caught between its two steps, any number of URBs are deferred. */
  lemma {:induction false} FloodUrbs(k: nat) returns (steps: seq<Step>)
    ensures CanRun(INIT, steps)
    ensures var s := Exec(INIT, steps);
            |s.deferred| == k && s.unread == 0 && s.accepting && s.raiser == Caching && s.submitter == SubmitterIdle
  {
    if k == 0 {
      ExecAppend(INIT, [], RaiseLook(0));
      steps := [] + [RaiseLook(0)];
    } else {
      steps := FloodUrbs(k - 1);
      ExecAppend(INIT, steps, SubmitTake(URB));
      steps := steps + [SubmitTake(URB)];
      ExecAppend(INIT, steps, SubmitPark);
      steps := steps + [SubmitPark];
    }
  }

  /** With a submission caught between its two steps, any number of values are cached. */
  lemma {:induction false} FloodRaises(k: nat) returns (steps: seq<Step>)
    ensures CanRun(INIT, steps)
    ensures var s := Exec(INIT, steps);
            && s.unread == Min(k, D.MAX_CACHED_UPDATES) && s.deferred == [] && s.accepting
            && s.raiser == RaiserIdle && s.submitter == Parking(URB)
  {
    if k == 0 {
      ExecAppend(INIT, [], SubmitTake(URB));
      steps := [] + [SubmitTake(URB)];
    } else {
      steps := FloodRaises(k - 1);
      ExecAppend(INIT, steps, RaiseLook(0));
      steps := steps + [RaiseLook(0)];
      ExecAppend(INIT, steps, RaiseCache);
      steps := steps + [RaiseCache];
    }
  }

  /** The bound is tight on both sides, with nothing in flight. */
  lemma MissingHappens(k: nat) returns (urbs: seq<Step>, raises: seq<Step>)
    ensures CanRun(INIT, urbs) && CanRun(INIT, raises)
    ensures var s := Exec(INIT, urbs);
            |s.deferred| == k && s.unread == 1 && s.raiser == RaiserIdle && s.submitter == SubmitterIdle
    ensures var s := Exec(INIT, raises);
            && |s.deferred| == 1 && s.unread == Min(k, D.MAX_CACHED_UPDATES)
            && s.raiser == RaiserIdle && s.submitter == SubmitterIdle
  {
    urbs := FloodUrbs(k);
    ExecAppend(INIT, urbs, RaiseCache);
    urbs := urbs + [RaiseCache];
    raises := FloodRaises(k);
    ExecAppend(INIT, raises, SubmitPark);
    raises := raises + [SubmitPark];
  }

  /** And then an older value follows a newer one: the first is cached beside a
      deferred URB, the second goes out through that URB, and the next URB fetches the
      first. */
  lemma OrderInverted(first: uint32, second: uint32) returns (steps: seq<Step>)
    ensures CanRun(INIT, steps)
    ensures var s := Exec(INIT, steps);
            && s.raised == [first, second] && s.out == [D.Done(URB, 2), D.Done(URB, 1)]
            && s.unread == 0 && s.deferred == [] && s.raiser == RaiserIdle && s.submitter == SubmitterIdle
  {
    steps := [];
    ExecAppend(INIT, steps, SubmitTake(URB));
    steps := steps + [SubmitTake(URB)];
    ExecAppend(INIT, steps, RaiseLook(first));
    steps := steps + [RaiseLook(first)];
    ExecAppend(INIT, steps, SubmitPark);
    steps := steps + [SubmitPark];
    ExecAppend(INIT, steps, RaiseCache);
    steps := steps + [RaiseCache];
    ExecAppend(INIT, steps, RaiseLook(second));
    steps := steps + [RaiseLook(second)];
    ExecAppend(INIT, steps, RaiseComplete);
    steps := steps + [RaiseComplete];
    ExecAppend(INIT, steps, SubmitTake(URB));
    steps := steps + [SubmitTake(URB)];
    ExecAppend(INIT, steps, SubmitComplete);
    steps := steps + [SubmitComplete];
  }

  // ----- Where the values are

  ghost predicate Delivered(out: seq<Completion>, no: nat) {
    exists i | 0 <= i < |out| :: out[i].Done? && out[i].value == no
  }

  predicate Mailed(s: State, no: nat) { s.unread > 0 && s.latest == no }

  predicate Served(s: State, no: nat) { s.submitter.Serving? && s.submitter.no == no }

  predicate BeingRaised(s: State, no: nat) { !s.raiser.RaiserIdle? && no == |s.raised| }

  /** Only genuine values are about, and none in two places at once. */
  ghost predicate Apart(s: State) {
    && (s.unread > 0 ==> 1 <= s.latest <= |s.raised|)
    && (s.submitter.Serving? ==> 1 <= s.submitter.no <= |s.raised|)
    && (!s.raiser.RaiserIdle? ==> 1 <= |s.raised|)
    && !(s.unread > 0 && (Served(s, s.latest) || BeingRaised(s, s.latest)))
    && !(s.submitter.Serving? && BeingRaised(s, s.submitter.no))
  }

  /** The value is delivered and nowhere else. */
  ghost predicate Spent(s: State, no: nat) {
    1 <= no <= |s.raised| && !Mailed(s, no) && !Served(s, no) && !BeingRaised(s, no)
  }

  /** Delivered values are genuine, nowhere else, and delivered once. */
  ghost predicate Placed(s: State) {
    && Apart(s)
    && (forall i | 0 <= i < |s.out| :: s.out[i].Done? ==> Spent(s, s.out[i].value))
    && (forall i, j | 0 <= i < j < |s.out| :: s.out[i].Done? && s.out[j].Done? ==> s.out[i].value != s.out[j].value)
  }

  lemma SpentStep(s: State, step: Step, no: nat)
    requires Apart(s) && Enabled(s, step)
    ensures Apart(Next(s, step))
    ensures Spent(s, no) ==> Spent(Next(s, step), no)
  {
  }

  /** The URBs completed by a step: at most one with a value, which was nowhere else
      before and is spent afterwards. */
  lemma OutStep(s: State, step: Step)
    requires Apart(s) && Enabled(s, step)
    ensures s.out <= Next(s, step).out
    ensures var s' := Next(s, step);
            forall i | |s.out| <= i < |s'.out| :: s'.out[i].Done? ==>
              i == |s.out| && |s'.out| == |s.out| + 1
              && !Spent(s, s'.out[i].value) && Spent(s', s'.out[i].value)
  {
  }

  lemma PlacedStep(s: State, step: Step)
    requires Placed(s) && Enabled(s, step)
    ensures Placed(Next(s, step))
  {
    var s' := Next(s, step);
    OutStep(s, step);
    SpentStep(s, step, 0);
    forall i | 0 <= i < |s'.out| && s'.out[i].Done?
      ensures Spent(s', s'.out[i].value)
    {
      if i < |s.out| {
        SpentStep(s, step, s'.out[i].value);
      }
    }
  }

  /** The newest value is delivered, cached, or about to be one or the other. */
  ghost predicate NewestKept(s: State) {
    var no := |s.raised|;
    no == 0 || Delivered(s.out, no) || Mailed(s, no) || Served(s, no) || BeingRaised(s, no)
  }

  /** The newest value is spent on a URB without room for exactly the flags. */
  predicate Loses(s: State, step: Step) {
    || (step.RaiseComplete? && s.raiser.Holding? && !D.Readable(s.raiser.urb))
    || (step.SubmitComplete? && s.submitter.Serving? && s.submitter.no == |s.raised|
        && !D.Readable(s.submitter.urb))
  }

  lemma DeliveredStep(s: State, step: Step, no: nat)
    requires Enabled(s, step)
    ensures Delivered(Next(s, step).out, no) <==>
            || Delivered(s.out, no)
            || (step.RaiseComplete? && D.Readable(s.raiser.urb) && no == |s.raised|)
            || (step.SubmitComplete? && D.Readable(s.submitter.urb) && no == s.submitter.no)
  {
    var out, out' := s.out, Next(s, step).out;
    if Delivered(out, no) {
      var i :| 0 <= i < |out| && out[i].Done? && out[i].value == no;
      assert out'[i] == out[i];
    }
    if step.RaiseComplete? || step.SubmitComplete? {
      assert out'[|out|] == D.Complete(if step.RaiseComplete? then s.raiser.urb else s.submitter.urb,
                                       if step.RaiseComplete? then |s.raised| else s.submitter.no);
    }
    if Delivered(out', no) && !Delivered(out, no) {
      var i :| 0 <= i < |out'| && out'[i].Done? && out'[i].value == no;
      assert i >= |out|;
    }
  }

  /** A lost value stays lost, and a kept one is lost exactly by being spent so. */
  lemma NewestLostExactly(s: State, step: Step)
    requires Placed(s) && Enabled(s, step)
    ensures NewestKept(Next(s, step)) <==> step.RaiseLook? || (NewestKept(s) && !Loses(s, step))
  {
    var s', no := Next(s, step), |s.raised|;
    OutStep(s, step);
    if !step.RaiseLook? {
      DeliveredStep(s, step, no);
    }
  }

  /** Whether the newest value is kept after steps, told from the losing steps alone. */
  ghost predicate KeptBy(s: State, steps: seq<Step>, kept: bool)
    requires CanRun(s, steps)
    decreases |steps|
  {
    if steps == [] then kept
    else KeptBy(Next(s, steps[0]), steps[1..], steps[0].RaiseLook? || (kept && !Loses(s, steps[0])))
  }

  lemma {:induction false} NewestInRun(s: State, steps: seq<Step>)
    requires Placed(s) && CanRun(s, steps)
    ensures Placed(Exec(s, steps))
    ensures NewestKept(Exec(s, steps)) <==> KeptBy(s, steps, NewestKept(s))
    decreases |steps|
  {
    if steps != [] {
      PlacedStep(s, steps[0]);
      NewestLostExactly(s, steps[0]);
      NewestInRun(Next(s, steps[0]), steps[1..]);
    }
  }

  // ----- With 4-byte URBs, as the host submits them

  ghost predicate AllReadable(s: State) {
    && (forall i | 0 <= i < |s.deferred| :: D.Readable(s.deferred[i]))
    && (s.raiser.Holding? ==> D.Readable(s.raiser.urb))
    && (!s.submitter.SubmitterIdle? ==> D.Readable(s.submitter.urb))
  }

  ghost predicate ReadableSteps(steps: seq<Step>) {
    forall i | 0 <= i < |steps| :: steps[i].SubmitTake? ==> D.Readable(steps[i].urb)
  }

  lemma ReadableStep(s: State, step: Step)
    requires AllReadable(s) && Enabled(s, step) && (step.SubmitTake? ==> D.Readable(step.urb))
    ensures AllReadable(Next(s, step)) && !Loses(s, step)
  {
  }

  lemma {:induction false} KeptThroughout(s: State, steps: seq<Step>)
    requires CanRun(s, steps) && AllReadable(s) && ReadableSteps(steps)
    ensures KeptBy(s, steps, true)
    decreases |steps|
  {
    if steps != [] {
      ReadableStep(s, steps[0]);
      KeptThroughout(Next(s, steps[0]), steps[1..]);
    }
  }

  /** In every interleaving, with any sleeps, wakes and cancellations: no value is
      delivered twice, and the newest one is delivered, cached, or about to be. */
  lemma NewestNeverLost(steps: seq<Step>)
    requires CanRun(INIT, steps) && ReadableSteps(steps)
    ensures var s := Exec(INIT, steps);
            && NewestKept(s)
            && forall i, j | 0 <= i < j < |s.out| ::
                 s.out[i].Done? && s.out[j].Done? ==> s.out[i].value != s.out[j].value
  {
    NewestInRun(INIT, steps);
    KeptThroughout(INIT, steps);
  }

  // ----- Raise order, and exactly when it is lost

  /** The values delivered are in raise order. */
  ghost predicate Sorted(out: seq<Completion>) {
    forall i, j | 0 <= i < j < |out| :: out[i].Done? && out[j].Done? ==> out[i].value < out[j].value
  }

  ghost predicate Below(out: seq<Completion>, no: nat) {
    forall i | 0 <= i < |out| :: out[i].Done? ==> out[i].value < no
  }

  /** A value is about to be delivered to the URB that fetched it. */
  predicate Fetched(s: State) {
    s.submitter.Serving? && D.Readable(s.submitter.urb)
  }

  /** So are they together with those fetched and cached, in this order. */
  ghost predicate InOrder(s: State) {
    && Sorted(s.out)
    && (Fetched(s) ==> Below(s.out, s.submitter.no))
    && (s.unread > 0 ==> Below(s.out, s.latest))
    && (s.submitter.Serving? && s.unread > 0 ==> s.submitter.no < s.latest)
  }

  /** A raise delivers its value to the URB it retrieved while an older one is cached
      or about to be delivered. */
  predicate Overtakes(s: State, step: Step) {
    && step.RaiseComplete? && s.raiser.Holding? && D.Readable(s.raiser.urb)
    && (s.unread > 0 || Fetched(s))
  }

  lemma InOrderExactly(s: State, step: Step)
    requires Placed(s) && InOrder(s) && Enabled(s, step)
    ensures InOrder(Next(s, step)) <==> !Overtakes(s, step)
  {
    var s' := Next(s, step);
    if Overtakes(s, step) {
      assert s'.out[|s.out|] == D.Done(s.raiser.urb, |s.raised|);
    }
  }

  ghost predicate NoOvertaking(s: State, steps: seq<Step>)
    requires CanRun(s, steps)
    decreases |steps|
  {
    steps == [] || (!Overtakes(s, steps[0]) && NoOvertaking(Next(s, steps[0]), steps[1..]))
  }

  ghost predicate InOrderThroughout(s: State, steps: seq<Step>)
    requires CanRun(s, steps)
    decreases |steps|
  {
    InOrder(s) && (steps == [] || InOrderThroughout(Next(s, steps[0]), steps[1..]))
  }

  /** Over every run raise order is kept throughout if and only if no raise overtakes. */
  lemma {:induction false} InOrderInRun(s: State, steps: seq<Step>)
    requires Placed(s) && InOrder(s) && CanRun(s, steps)
    ensures InOrderThroughout(s, steps) <==> NoOvertaking(s, steps)
    ensures NoOvertaking(s, steps) ==> InOrder(Exec(s, steps))
    decreases |steps|
  {
    if steps != [] {
      PlacedStep(s, steps[0]);
      InOrderExactly(s, steps[0]);
      if !Overtakes(s, steps[0]) {
        InOrderInRun(Next(s, steps[0]), steps[1..]);
      } else if steps[1..] == [] {
        assert !InOrderThroughout(Next(s, steps[0]), steps[1..]);
      }
    }
  }

  /** Steps of submissions, cancellations, sleeps and wakes. */
  predicate NoRaising(steps: seq<Step>) {
    forall i | 0 <= i < |steps| :: !steps[i].RaiseLook? && !steps[i].RaiseComplete? && !steps[i].RaiseCache?
  }

  lemma {:induction false} NoRaisingNoOvertaking(s: State, steps: seq<Step>)
    requires CanRun(s, steps) && NoRaising(steps)
    ensures NoOvertaking(s, steps)
    decreases |steps|
  {
    if steps != [] {
      assert steps[0] in steps;
      NoRaisingNoOvertaking(Next(s, steps[0]), steps[1..]);
    }
  }

  lemma RunCons(s: State, step: Step, steps: seq<Step>)
    requires Enabled(s, step) && CanRun(Next(s, step), steps)
    ensures CanRun(s, [step] + steps) && Exec(s, [step] + steps) == Exec(Next(s, step), steps)
  {
    assert ([step] + steps)[1..] == steps;
  }

  /** An older value that is cached or fetched behind a newer one delivered goes out. */
  lemma OlderGoesOut(s: State, newest: nat) returns (steps: seq<Step>)
    requires Apart(s) && Delivered(s.out, newest)
    requires if Fetched(s) then s.submitter.no < newest else s.unread > 0 && s.latest < newest
    ensures CanRun(s, steps) && NoRaising(steps) && !Sorted(Exec(s, steps).out)
    decreases if s.submitter.SubmitterIdle? then 1 else if Fetched(s) then 0 else 2
  {
    var i :| 0 <= i < |s.out| && s.out[i].Done? && s.out[i].value == newest;
    var step :=
      match s.submitter
      case SubmitterIdle => SubmitTake(URB)
      case Serving(_, _) => SubmitComplete
      case Parking(_) => SubmitPark;
    var s1 := Next(s, step);
    assert s1.out[i] == s.out[i];
    if Fetched(s) {
      assert s1.out[|s.out|] == D.Done(s.submitter.urb, s.submitter.no);
      assert CanRun(s1, []);
      RunCons(s, step, []);
      steps := [step] + [];
    } else {
      SpentStep(s, step, 0);
      var rest := OlderGoesOut(s1, newest);
      RunCons(s, step, rest);
      steps := [step] + rest;
    }
  }

  /** Overtaking is exactly what lets submissions alone deliver values out of order. */
  lemma InvertsExactly(s: State, step: Step)
    requires Placed(s) && InOrder(s) && Enabled(s, step)
    ensures (exists steps :: CanRun(Next(s, step), steps) && NoRaising(steps)
                             && !Sorted(Exec(Next(s, step), steps).out))
            <==> Overtakes(s, step)
  {
    var s1 := Next(s, step);
    PlacedStep(s, step);
    InOrderExactly(s, step);
    if Overtakes(s, step) {
      assert s1.out[|s.out|] == D.Done(s.raiser.urb, |s.raised|);
      var steps := OlderGoesOut(s1, |s.raised|);
    } else {
      forall steps | CanRun(s1, steps) && NoRaising(steps)
        ensures Sorted(Exec(s1, steps).out)
      {
        NoRaisingNoOvertaking(s1, steps);
        InOrderInRun(s1, steps);
      }
    }
  }

  /** A raise retrieves a URB while an older value is cached or being served: only
      then can it overtake. */
  predicate RetrievesBehind(s: State, step: Step) {
    step.RaiseLook? && s.deferred != [] && (s.unread > 0 || s.submitter.Serving?)
  }

  ghost predicate NoneRetrievesBehind(s: State, steps: seq<Step>)
    requires CanRun(s, steps)
    decreases |steps|
  {
    steps == [] || (!RetrievesBehind(s, steps[0]) && NoneRetrievesBehind(Next(s, steps[0]), steps[1..]))
  }

  lemma {:induction false} NoneOvertakes(s: State, steps: seq<Step>)
    requires CanRun(s, steps) && NoneRetrievesBehind(s, steps)
    requires s.raiser.Holding? ==> s.unread == 0 && !s.submitter.Serving?
    ensures NoOvertaking(s, steps)
    decreases |steps|
  {
    if steps != [] {
      NoneOvertakes(Next(s, steps[0]), steps[1..]);
    }
  }
}
