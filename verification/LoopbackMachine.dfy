/** The loopback function between enabling and the end of teardown, as a state
    machine.  qlen pairs of requests, each pair sharing one buffer, circulate: the
    OUT request collects packets from the host, its completion queues the IN request
    of the pair, and the IN request's completion queues the OUT request again.
    Completions run some time after the controller finished a request, and host
    traffic, completions and the two disables interleave freely.  A pair goes by its
    number. */
module LoopbackMachine {
  import opened Counting
  import opened LoopbackPackets
  import opened Wdf

  /** mps is the maximum packet size of both bulk endpoints. */
  datatype Config = Config(qlen: nat, buflen: nat, mps: nat) {
    predicate Valid() { mps > 0 && qlen > 0 }

    predicate Aligned() { mps > 0 && buflen > 0 && buflen % mps == 0 }
  }

  /** What the buffer of a pair holds, and the zero flag of its IN request. */
  datatype Transfer = Transfer(pair: nat, data: Bytes, zero: bool)

  datatype State = State(
    outQ: seq<nat>,           // pairs whose OUT request is queued on out_ep
    filling: seq<Packet>,     // packets received for the first of them
    outDone: seq<Transfer>,   // OUT requests completed with status 0, completion routine not yet run
    inQ: seq<Transfer>,       // IN requests queued on in_ep
    emitted: nat,             // packets of the first of them already read by the host
    inDone: seq<nat>,         // IN requests completed with status 0, completion routine not yet run
    failing: seq<nat>,        // requests completed with an error, completion routine not yet run
    outEnabled: bool,
    inEnabled: bool,
    freed: seq<nat>,          // one entry each time a pair and its buffer are freed
    sent: seq<Packet>,        // everything the host wrote
    read: seq<Packet>,        // everything the host read
    aborted: bool)            // on an enabled endpoint, the controller completed a request
                              // with an error or refused to queue one

  datatype Step =
    | HostOut(packet: Packet)
    | HostIn
    | DisableOut
    | DisableIn
    | AbortOut(k: nat)        // the controller completes a queued request with an error:
    | AbortIn(k: nat)         // a reset, or the disabling of the endpoint
    | CompleteOut(accepted: bool)           // whether an enabled endpoint takes the
    | CompleteIn(k: nat, accepted: bool)    // next request of the pair
    | CompleteFailed(k: nat)

  function Upto(n: nat): (r: seq<nat>)
    ensures |r| == n && forall i | 0 <= i < n :: r[i] == i
  {
    seq(n, i => i)
  }

  /** No endpoint enabled and nothing allocated. */
  const IDLE := State([], [], [], [], 0, [], [], false, false, [], [], [], false)

  /** Both endpoints enabled and the first n pairs waiting for the host. */
  function Primed(n: nat): State {
    State(Upto(n), [], [], [], 0, [], [], true, true, [], [], [], false)
  }

  /** Where enable_loopback leaves the function when it succeeds. */
  function Start(cfg: Config): State {
    Primed(cfg.qlen)
  }

  function Packets(cfg: Config, t: Transfer): seq<Packet>
    requires cfg.mps > 0
  {
    Emit(t.data, t.zero, cfg.mps)
  }

  /** The IN request that loopback_complete makes of a finished OUT request. */
  function Looped(cfg: Config, t: Transfer): Transfer {
    t.(zero := |t.data| < cfg.buflen)
  }

  predicate Enabled(cfg: Config, s: State, step: Step)
    requires cfg.mps > 0
  {
    match step
    case HostOut(packet) => s.outEnabled && s.outQ != [] && |packet| <= cfg.mps
    case HostIn => s.inEnabled && s.inQ != [] && s.emitted < |Packets(cfg, s.inQ[0])|
    case DisableOut => s.outEnabled
    case DisableIn => s.inEnabled
    case AbortOut(k) => k < |s.outQ|
    case AbortIn(k) => k < |s.inQ|
    case CompleteOut(_) => s.outDone != []
    case CompleteIn(k, _) => k < |s.inDone|
    case CompleteFailed(k) => k < |s.failing|
  }

  /** The first OUT request ends with an error, and with it what it collected. */
  function FailOut(s: State): State
    requires s.outQ != []
  {
    s.(outQ := s.outQ[1..], filling := [], failing := s.failing + [s.outQ[0]])
  }

  /** The first OUT request ends with status 0. */
  function FinishOut(s: State, got: Bytes): State
    requires s.outQ != []
  {
    s.(outQ := s.outQ[1..], filling := [], outDone := s.outDone + [Transfer(s.outQ[0], got, false)])
  }

  /** A packet of the host reaches the first OUT request: it overflows what is left
      of the buffer, or ends the request by being short or filling the buffer, or is
      collected. */
  function Receive(cfg: Config, s: State, packet: Packet): State
    requires s.outQ != []
  {
    var got := Concat(s.filling + [packet]);
    var s' := s.(sent := s.sent + [packet]);
    if |got| > cfg.buflen then FailOut(s')
    else if |packet| < cfg.mps || |got| == cfg.buflen then FinishOut(s', got)
    else s'.(filling := s.filling + [packet])
  }

  /** The first IN request ends with status 0. */
  function FinishIn(s: State): State
    requires s.inQ != []
  {
    s.(inQ := s.inQ[1..], emitted := 0, inDone := s.inDone + [s.inQ[0].pair])
  }

  /** The host reads the next packet of the first IN request. */
  function Send(cfg: Config, s: State): State
    requires cfg.mps > 0 && s.inQ != [] && s.emitted < |Packets(cfg, s.inQ[0])|
  {
    var packets := Packets(cfg, s.inQ[0]);
    var s' := s.(read := s.read + [packets[s.emitted]]);
    if s.emitted + 1 < |packets| then s'.(emitted := s.emitted + 1) else FinishIn(s')
  }

  /** The controller takes a request off out_ep with an error. */
  function DropOut(s: State, k: nat): State
    requires k < |s.outQ|
  {
    s.(outQ := s.outQ[..k] + s.outQ[k + 1..],
       filling := if k == 0 then [] else s.filling,
       failing := s.failing + [s.outQ[k]],
       aborted := s.aborted || s.outEnabled)
  }

  /** The controller takes a request off in_ep with an error. */
  function DropIn(s: State, k: nat): State
    requires k < |s.inQ|
  {
    s.(inQ := s.inQ[..k] + s.inQ[k + 1..],
       emitted := if k == 0 then 0 else s.emitted,
       failing := s.failing + [s.inQ[k].pair],
       aborted := s.aborted || s.inEnabled)
  }

  /** loopback_complete for an OUT request with status 0. */
  function LoopOut(cfg: Config, s: State, accepted: bool): State
    requires s.outDone != []
  {
    var s' := s.(outDone := s.outDone[1..], aborted := s.aborted || (s.inEnabled && !accepted));
    if s.inEnabled && accepted then s'.(inQ := s.inQ + [Looped(cfg, s.outDone[0])])
    else s'.(freed := s.freed + [s.outDone[0].pair])
  }

  /** loopback_complete for an IN request with status 0. */
  function LoopIn(s: State, k: nat, accepted: bool): State
    requires k < |s.inDone|
  {
    var s' := s.(inDone := s.inDone[..k] + s.inDone[k + 1..], aborted := s.aborted || (s.outEnabled && !accepted));
    if s.outEnabled && accepted then s'.(outQ := s.outQ + [s.inDone[k]])
    else s'.(freed := s.freed + [s.inDone[k]])
  }

  /** loopback_complete for a request with an error status. */
  function Free(s: State, k: nat): State
    requires k < |s.failing|
  {
    s.(failing := s.failing[..k] + s.failing[k + 1..], freed := s.freed + [s.failing[k]])
  }

  function Next(cfg: Config, s: State, step: Step): State
    requires cfg.mps > 0 && Enabled(cfg, s, step)
  {
    match step
    case HostOut(packet) => Receive(cfg, s, packet)
    case HostIn => Send(cfg, s)
    case DisableOut => s.(outEnabled := false)
    case DisableIn => s.(inEnabled := false)
    case AbortOut(k) => DropOut(s, k)
    case AbortIn(k) => DropIn(s, k)
    case CompleteOut(accepted) => LoopOut(cfg, s, accepted)
    case CompleteIn(k, accepted) => LoopIn(s, k, accepted)
    case CompleteFailed(k) => Free(s, k)
  }

  /** What counts as aborted: a request ended with an error by the controller, or
      refused by it, on an enabled endpoint, and nothing else. */
  lemma AbortedExactly(cfg: Config, s: State, step: Step)
    requires cfg.mps > 0 && Enabled(cfg, s, step)
    ensures Next(cfg, s, step).aborted <==>
            || s.aborted
            || (step.AbortOut? && s.outEnabled) || (step.AbortIn? && s.inEnabled)
            || (step.CompleteOut? && s.inEnabled && !step.accepted)
            || (step.CompleteIn? && s.outEnabled && !step.accepted)
  {
  }

  ghost predicate CanRun(cfg: Config, s: State, steps: seq<Step>)
    requires cfg.mps > 0
    decreases |steps|
  {
    steps == [] || (Enabled(cfg, s, steps[0]) && CanRun(cfg, Next(cfg, s, steps[0]), steps[1..]))
  }

  ghost function Exec(cfg: Config, s: State, steps: seq<Step>): State
    requires cfg.mps > 0 && CanRun(cfg, s, steps)
    decreases |steps|
  {
    if steps == [] then s else Exec(cfg, Next(cfg, s, steps[0]), steps[1..])
  }

  // ----- Ownership

  function Pairs(ts: seq<Transfer>): (r: seq<nat>)
    ensures |r| == |ts|
    ensures forall i | 0 <= i < |r| :: r[i] == ts[i].pair
  {
    seq(|ts|, i requires 0 <= i < |ts| => ts[i].pair)
  }

  function OnOut(s: State, p: nat): nat { Count(s.outQ, p) }

  function OnIn(s: State, p: nat): nat { Count(Pairs(s.inQ), p) }

  function InCompletion(s: State, p: nat): nat {
    Count(Pairs(s.outDone), p) + Count(s.inDone, p) + Count(s.failing, p)
  }

  /** In how many places pair p is. */
  function Places(s: State, p: nat): nat {
    OnOut(s, p) + OnIn(s, p) + InCompletion(s, p) + Count(s.freed, p)
  }

  function Live(s: State): nat {
    |s.outQ| + |s.outDone| + |s.inQ| + |s.inDone| + |s.failing|
  }

  lemma PairsTail(ts: seq<Transfer>, p: nat)
    requires ts != []
    ensures Count(Pairs(ts), p) == Count(Pairs(ts[1..]), p) + if ts[0].pair == p then 1 else 0
  {
    assert Pairs(ts)[1..] == Pairs(ts[1..]);
    CountTail(Pairs(ts), p);
  }

  lemma PairsAppend(ts: seq<Transfer>, t: Transfer, p: nat)
    ensures Count(Pairs(ts + [t]), p) == Count(Pairs(ts), p) + if t.pair == p then 1 else 0
  {
    assert Pairs(ts + [t]) == Pairs(ts) + [t.pair];
    CountAppend(Pairs(ts), t.pair, p);
  }

  lemma PairsTakeAt(ts: seq<Transfer>, k: nat, p: nat)
    requires k < |ts|
    ensures Count(Pairs(ts), p) ==
            Count(Pairs(ts[..k] + ts[k + 1..]), p) + if ts[k].pair == p then 1 else 0
  {
    assert Pairs(ts)[..k] + Pairs(ts)[k + 1..] == Pairs(ts[..k] + ts[k + 1..]);
    CountTakeAt(Pairs(ts), k, p);
  }

  lemma PlacesFailOut(s: State, p: nat)
    requires s.outQ != []
    ensures Places(FailOut(s), p) == Places(s, p) && Live(FailOut(s)) == Live(s)
  {
    CountTail(s.outQ, p);
    CountAppend(s.failing, s.outQ[0], p);
  }

  lemma PlacesFinishOut(s: State, got: Bytes, p: nat)
    requires s.outQ != []
    ensures Places(FinishOut(s, got), p) == Places(s, p) && Live(FinishOut(s, got)) == Live(s)
  {
    CountTail(s.outQ, p);
    PairsAppend(s.outDone, Transfer(s.outQ[0], got, false), p);
  }

  lemma PlacesFinishIn(s: State, p: nat)
    requires s.inQ != []
    ensures Places(FinishIn(s), p) == Places(s, p) && Live(FinishIn(s)) == Live(s)
  {
    PairsTail(s.inQ, p);
    CountAppend(s.inDone, s.inQ[0].pair, p);
  }

  lemma PlacesDropOut(s: State, k: nat, p: nat)
    requires k < |s.outQ|
    ensures Places(DropOut(s, k), p) == Places(s, p) && Live(DropOut(s, k)) == Live(s)
  {
    var s' := DropOut(s, k);
    var here := if s.outQ[k] == p then 1 else 0;
    assert OnOut(s, p) == OnOut(s', p) + here by { CountTakeAt(s.outQ, k, p); }
    assert InCompletion(s', p) == InCompletion(s, p) + here by { CountAppend(s.failing, s.outQ[k], p); }
  }

  lemma PlacesDropIn(s: State, k: nat, p: nat)
    requires k < |s.inQ|
    ensures Places(DropIn(s, k), p) == Places(s, p) && Live(DropIn(s, k)) == Live(s)
  {
    var s' := DropIn(s, k);
    var here := if s.inQ[k].pair == p then 1 else 0;
    assert OnIn(s, p) == OnIn(s', p) + here by { PairsTakeAt(s.inQ, k, p); }
    assert InCompletion(s', p) == InCompletion(s, p) + here by { CountAppend(s.failing, s.inQ[k].pair, p); }
  }

  lemma PlacesLoopOut(cfg: Config, s: State, accepted: bool, p: nat)
    requires s.outDone != []
    ensures Places(LoopOut(cfg, s, accepted), p) == Places(s, p)
    ensures Live(LoopOut(cfg, s, accepted)) + |LoopOut(cfg, s, accepted).freed| == Live(s) + |s.freed|
  {
    var s', t := LoopOut(cfg, s, accepted), s.outDone[0];
    var here := if t.pair == p then 1 else 0;
    assert InCompletion(s, p) == InCompletion(s', p) + here by { PairsTail(s.outDone, p); }
    if s.inEnabled && accepted {
      assert OnIn(s', p) == OnIn(s, p) + here by { PairsAppend(s.inQ, Looped(cfg, t), p); }
    } else {
      assert Count(s'.freed, p) == Count(s.freed, p) + here by { CountAppend(s.freed, t.pair, p); }
    }
  }

  lemma PlacesLoopIn(s: State, k: nat, accepted: bool, p: nat)
    requires k < |s.inDone|
    ensures Places(LoopIn(s, k, accepted), p) == Places(s, p)
    ensures Live(LoopIn(s, k, accepted)) + |LoopIn(s, k, accepted).freed| == Live(s) + |s.freed|
  {
    var s', here := LoopIn(s, k, accepted), if s.inDone[k] == p then 1 else 0;
    assert InCompletion(s, p) == InCompletion(s', p) + here by { CountTakeAt(s.inDone, k, p); }
    if s.outEnabled && accepted {
      assert OnOut(s', p) == OnOut(s, p) + here by { CountAppend(s.outQ, s.inDone[k], p); }
    } else {
      assert Count(s'.freed, p) == Count(s.freed, p) + here by { CountAppend(s.freed, s.inDone[k], p); }
    }
  }

  lemma PlacesFree(s: State, k: nat, p: nat)
    requires k < |s.failing|
    ensures Places(Free(s, k), p) == Places(s, p)
    ensures Live(Free(s, k)) + |Free(s, k).freed| == Live(s) + |s.freed|
  {
    CountTakeAt(s.failing, k, p);
    CountAppend(s.freed, s.failing[k], p);
  }

  lemma PlacesReceive(cfg: Config, s: State, packet: Packet, p: nat)
    requires s.outQ != []
    ensures Places(Receive(cfg, s, packet), p) == Places(s, p) && Live(Receive(cfg, s, packet)) == Live(s)
    ensures Receive(cfg, s, packet).freed == s.freed
  {
    var s' := s.(sent := s.sent + [packet]);
    PlacesFailOut(s', p);
    PlacesFinishOut(s', Concat(s.filling + [packet]), p);
  }

  lemma PlacesSend(cfg: Config, s: State, p: nat)
    requires cfg.mps > 0 && s.inQ != [] && s.emitted < |Packets(cfg, s.inQ[0])|
    ensures Places(Send(cfg, s), p) == Places(s, p) && Live(Send(cfg, s)) == Live(s)
    ensures Send(cfg, s).freed == s.freed
  {
    PlacesFinishIn(s.(read := s.read + [Packets(cfg, s.inQ[0])[s.emitted]]), p);
  }

  ghost predicate Balanced(s: State, s': State, p: nat) {
    Places(s', p) == Places(s, p) && Live(s') + |s'.freed| == Live(s) + |s.freed|
  }

  lemma PlacesStep(cfg: Config, s: State, step: Step, p: nat)
    requires cfg.mps > 0 && Enabled(cfg, s, step)
    ensures Balanced(s, Next(cfg, s, step), p)
  {
    match step
    case HostOut(packet) => PlacesReceive(cfg, s, packet, p);
    case HostIn => PlacesSend(cfg, s, p);
    case AbortOut(k) => PlacesDropOut(s, k, p);
    case AbortIn(k) => PlacesDropIn(s, k, p);
    case CompleteOut(accepted) => PlacesLoopOut(cfg, s, accepted, p);
    case CompleteIn(k, accepted) => PlacesLoopIn(s, k, accepted, p);
    case CompleteFailed(k) => PlacesFree(s, k, p);
    case _ =>
  }

  lemma {:induction false} CountUpto(n: nat, p: nat)
    ensures Count(Upto(n), p) == if p < n then 1 else 0
  {
    if n > 0 {
      CountUpto(n - 1, p);
      assert Upto(n)[..n - 1] == Upto(n - 1);
    }
  }

  lemma {:induction false} PlacesRun(cfg: Config, s: State, steps: seq<Step>, p: nat)
    requires cfg.mps > 0 && CanRun(cfg, s, steps)
    ensures Balanced(s, Exec(cfg, s, steps), p)
    decreases |steps|
  {
    if steps != [] {
      PlacesStep(cfg, s, steps[0], p);
      PlacesRun(cfg, Next(cfg, s, steps[0]), steps[1..], p);
    }
  }

  /** In every run, through every error and teardown, each of the qlen pairs is at
      every moment queued on out_ep, or queued on in_ep, or on its way through a
      completion, or freed: exactly one of them, exactly once, so its buffer is never
      owned by both endpoints and never freed twice.  Live pairs never exceed qlen. */
  lemma Ownership(cfg: Config, steps: seq<Step>, p: nat)
    requires cfg.Valid() && CanRun(cfg, Start(cfg), steps)
    ensures var s := Exec(cfg, Start(cfg), steps);
            && OnOut(s, p) + OnIn(s, p) + InCompletion(s, p) + Count(s.freed, p) == (if p < cfg.qlen then 1 else 0)
            && Live(s) + |s.freed| == cfg.qlen
  {
    PlacesRun(cfg, Start(cfg), steps, p);
    CountUpto(cfg.qlen, p);
  }

  // ----- Teardown

  function Weight(s: State): nat {
    2 * |s.outQ| + 2 * |s.inQ| + |s.outDone| + |s.inDone| + |s.failing|
  }

  predicate Disabled(s: State) { !s.outEnabled && !s.inEnabled }

  lemma TeardownStep(cfg: Config, s: State, step: Step)
    requires cfg.mps > 0 && Disabled(s) && Enabled(cfg, s, step)
    ensures Disabled(Next(cfg, s, step)) && Weight(Next(cfg, s, step)) < Weight(s)
  {
  }

  /** Once both endpoints are disabled only finitely much can still happen. */
  lemma {:induction false} TeardownTerminates(cfg: Config, s: State, steps: seq<Step>)
    requires cfg.mps > 0 && Disabled(s) && CanRun(cfg, s, steps)
    ensures |steps| <= Weight(s) <= 2 * Live(s)
    decreases |steps|
  {
    if steps != [] {
      TeardownStep(cfg, s, steps[0]);
      TeardownTerminates(cfg, Next(cfg, s, steps[0]), steps[1..]);
    }
  }

  ghost predicate Finished(cfg: Config, s: State)
    requires cfg.mps > 0
  {
    forall step :: !Enabled(cfg, s, step)
  }

  lemma FinishedExactly(cfg: Config, s: State)
    requires cfg.mps > 0
    ensures Finished(cfg, s) <==> Disabled(s) && Live(s) == 0
  {
    if Finished(cfg, s) {
      assert !Enabled(cfg, s, DisableOut) && !Enabled(cfg, s, DisableIn);
      assert !Enabled(cfg, s, AbortOut(0)) && !Enabled(cfg, s, AbortIn(0));
      assert !Enabled(cfg, s, CompleteOut(true)) && !Enabled(cfg, s, CompleteIn(0, true));
      assert !Enabled(cfg, s, CompleteFailed(0));
    } else {
      var step :| Enabled(cfg, s, step);
    }
  }

  /** However normal completions, errors and the two disables interleaved: when
      nothing is left to happen both endpoints are disabled, no pair is live and each
      has been freed exactly once. */
  lemma Teardown(cfg: Config, steps: seq<Step>, p: nat)
    requires cfg.Valid() && CanRun(cfg, Start(cfg), steps)
    ensures var s := Exec(cfg, Start(cfg), steps);
            Finished(cfg, s) ==>
              && Disabled(s) && Live(s) == 0
              && |s.freed| == cfg.qlen && Count(s.freed, p) == if p < cfg.qlen then 1 else 0
  {
    var s := Exec(cfg, Start(cfg), steps);
    if Finished(cfg, s) {
      FinishedExactly(cfg, s);
      Ownership(cfg, steps, p);
    }
  }
}
