/** The loopback function over its requests, buffers and endpoint queues, together
    with the controller that fills, empties and completes the requests.  The ghost
    field m is the state of the machine that the heap is in; every step of the machine
    has a method that takes it, so that what holds of its runs holds here. */
module LoopbackDriver {
  import opened Counting
  import opened LoopbackPackets
  import opened Wdf
  import M = LoopbackMachine
  import T = LoopbackTransparency

  const EIO := -5
  const ENOMEM := -12
  const EOVERFLOW := -75
  const ECONNRESET := -104
  const ESHUTDOWN := -108

  class UsbRequest {
    var context: UsbRequest?
    var buf: array?<byte>
    var length: nat
    var actual: nat
    var zero: bool
    var status: int
    ghost const pair: nat
    const forIn: bool     // the endpoint it was allocated for

    constructor (buf: array?<byte>, length: nat, ghost pair: nat, forIn: bool)
      ensures this.buf == buf && this.length == length && context == null
      ensures this.pair == pair && this.forIn == forIn
    {
      context, this.buf, this.length, actual, zero, status := null, buf, length, 0, false, 0;
      this.pair, this.forIn := pair, forIn;
    }
  }

  /** Where setting up the pairs goes wrong, if it does. */
  datatype Stage = InRequest | OutRequest | Queueing(error: int)
  datatype Fault = Never | At(i: nat, stage: Stage)

  /** A FIFO of requests; queueing on a disabled endpoint fails.  The controller is at
      position in the first request (bytes received, or packets sent), and done holds
      the requests it has completed with status 0 and not yet reported. */
  class Endpoint {
    var queue: seq<UsbRequest>
    var position: nat
    var done: seq<UsbRequest>
    var enabled: bool

    constructor ()
      ensures queue == [] && position == 0 && done == [] && !enabled
    {
      queue, position, done, enabled := [], 0, [], false;
    }

    /** usb_ep_queue; fault is an error of the controller's own. */
    method Queue(req: UsbRequest, fault: int) returns (status: int)
      modifies this`queue
      ensures status == (if !enabled then -108 else fault)
      ensures queue == if status == 0 then old(queue) + [req] else old(queue)
    {
      if !enabled {
        return ESHUTDOWN;
      }
      if fault == 0 {
        queue := queue + [req];
      }
      return fault;
    }

    /** The controller takes a request off the queue. */
    method Take(k: nat) returns (req: UsbRequest)
      requires k < |queue|
      modifies this`queue, this`position
      ensures req == old(queue)[k] && queue == old(queue)[..k] + old(queue)[k + 1..]
      ensures position == if k == 0 then 0 else old(position)
    {
      req := queue[k];
      queue := queue[..k] + queue[k + 1..];
      if k == 0 {
        position := 0;
      }
    }
  }

  /** The context pointers of pair k lead to each other, and its requests share a
      buffer. */
  ghost predicate Linked(o: UsbRequest, i: UsbRequest, k: nat, buflen: nat)
    reads o`context, i`context, o`buf, i`buf, o`length
  {
    && o.context == i && i.context == o && o.pair == k && i.pair == k && !o.forIn && i.forIn
    && o.buf != null && i.buf == o.buf && o.buf.Length == buflen && o.length == buflen
  }

  /** An IN request with its data. */
  ghost predicate Carries(r: UsbRequest, t: M.Transfer)
    reads r`buf, r`length, r`zero, r.buf
  {
    && r.buf != null && r.length <= r.buf.Length
    && t == M.Transfer(r.pair, r.buf[..r.length], r.zero)
  }

  /** A finished OUT request with its data. */
  ghost predicate Holds(r: UsbRequest, t: M.Transfer)
    reads r`buf, r`actual, r`status, r.buf
  {
    && r.status == 0 && r.buf != null && r.actual <= r.buf.Length
    && t == M.Transfer(r.pair, r.buf[..r.actual], false)
  }

  // ----- Ownership, in the machine's terms

  ghost predicate OwnedOnce(s: M.State, n: nat) {
    forall p: nat :: M.Places(s, p) == if p < n then 1 else 0
  }

  /** Pair p is nowhere: on its way from one place to another. */
  ghost predicate Nowhere(s: M.State, p: nat) {
    && (forall j | 0 <= j < |s.outQ| :: s.outQ[j] != p)
    && (forall j | 0 <= j < |s.inQ| :: s.inQ[j].pair != p)
    && (forall j | 0 <= j < |s.outDone| :: s.outDone[j].pair != p)
    && (forall j | 0 <= j < |s.inDone| :: s.inDone[j] != p)
    && (forall j | 0 <= j < |s.failing| :: s.failing[j] != p)
    && p !in s.freed
  }

  lemma NoPlaces(s: M.State, p: nat)
    requires M.Places(s, p) == 0
    ensures Nowhere(s, p)
  {
    CountZero(s.outQ, p);
    CountZero(M.Pairs(s.inQ), p);
    CountZero(M.Pairs(s.outDone), p);
    CountZero(s.inDone, p);
    CountZero(s.failing, p);
    CountZero(s.freed, p);
    assert forall j | 0 <= j < |s.inQ| :: M.Pairs(s.inQ)[j] == s.inQ[j].pair;
    assert forall j | 0 <= j < |s.outDone| :: M.Pairs(s.outDone)[j] == s.outDone[j].pair;
  }

  /** The states in which a pair has just left its place. */
  function LeftOutDone(s: M.State): M.State
    requires s.outDone != []
  {
    s.(outDone := s.outDone[1..])
  }

  function LeftInDone(s: M.State, k: nat): M.State
    requires k < |s.inDone|
  {
    s.(inDone := s.inDone[..k] + s.inDone[k + 1..])
  }

  function LeftFailing(s: M.State, k: nat): M.State
    requires k < |s.failing|
  {
    s.(failing := s.failing[..k] + s.failing[k + 1..])
  }

  function LeftOut(s: M.State, k: nat): M.State
    requires k < |s.outQ|
  {
    s.(outQ := s.outQ[..k] + s.outQ[k + 1..], filling := if k == 0 then [] else s.filling)
  }

  function LeftIn(s: M.State, k: nat): M.State
    requires k < |s.inQ|
  {
    s.(inQ := s.inQ[..k] + s.inQ[k + 1..], emitted := if k == 0 then 0 else s.emitted)
  }

  /** The states differ at most in what the heap does not show. */
  ghost predicate Agree(a: M.State, b: M.State) {
    a == b.(aborted := a.aborted, sent := a.sent, read := a.read)
  }

  /** Where pair p goes by the completion of one of its requests. */
  ghost function Completed(cfg: M.Config, s: M.State, p: nat, forIn: bool, status: int, fault: int,
                           t: M.Transfer): M.State
  {
    if status == 0 && !forIn && s.inEnabled && fault == 0 then s.(inQ := s.inQ + [M.Looped(cfg, t)])
    else if status == 0 && forIn && s.outEnabled && fault == 0 then s.(outQ := s.outQ + [p])
    else s.(freed := s.freed + [p])
  }

  /** A state that owns every pair once and that the heap may show as s. */
  ghost predicate ShownAs(m': M.State, s: M.State, n: nat) {
    Agree(m', s) && OwnedOnce(m', n)
  }

  lemma OutDoneCompletes(cfg: M.Config, s: M.State, n: nat, fault: int)
    requires cfg.mps > 0 && OwnedOnce(s, n) && s.outDone != []
    ensures var t := s.outDone[0];
            && Nowhere(LeftOutDone(s), t.pair)
            && ShownAs(M.LoopOut(cfg, s, fault == 0), Completed(cfg, LeftOutDone(s), t.pair, false, 0, fault, t), n)
  {
    var p := s.outDone[0].pair;
    M.PairsTail(s.outDone, p);
    assert M.Places(s, p) == M.Places(LeftOutDone(s), p) + 1;
    NoPlaces(LeftOutDone(s), p);
    OwnedNext(cfg, s, M.CompleteOut(fault == 0), n);
  }

  lemma InDoneCompletes(cfg: M.Config, s: M.State, n: nat, k: nat, fault: int, t: M.Transfer)
    requires cfg.mps > 0 && OwnedOnce(s, n) && k < |s.inDone|
    ensures var p := s.inDone[k];
            && Nowhere(LeftInDone(s, k), p)
            && ShownAs(M.LoopIn(s, k, fault == 0), Completed(cfg, LeftInDone(s, k), p, true, 0, fault, t), n)
  {
    var p := s.inDone[k];
    CountTakeAt(s.inDone, k, p);
    assert M.Places(s, p) == M.Places(LeftInDone(s, k), p) + 1;
    NoPlaces(LeftInDone(s, k), p);
    OwnedNext(cfg, s, M.CompleteIn(k, fault == 0), n);
  }

  lemma FailedCompletes(cfg: M.Config, s: M.State, n: nat, k: nat, t: M.Transfer)
    requires cfg.mps > 0 && OwnedOnce(s, n) && k < |s.failing|
    ensures var p := s.failing[k];
            && Nowhere(LeftFailing(s, k), p)
            && forall forIn, status | status != 0 ::
                 ShownAs(M.Free(s, k), Completed(cfg, LeftFailing(s, k), p, forIn, status, 0, t), n)
  {
    var p := s.failing[k];
    CountTakeAt(s.failing, k, p);
    assert M.Places(s, p) == M.Places(LeftFailing(s, k), p) + 1;
    NoPlaces(LeftFailing(s, k), p);
    OwnedNext(cfg, s, M.CompleteFailed(k), n);
  }

  lemma OutLeaves(s: M.State, n: nat, k: nat)
    requires OwnedOnce(s, n) && k < |s.outQ|
    ensures Nowhere(LeftOut(s, k), s.outQ[k])
  {
    var p := s.outQ[k];
    CountTakeAt(s.outQ, k, p);
    assert M.Places(s, p) == M.Places(LeftOut(s, k), p) + 1;
    NoPlaces(LeftOut(s, k), p);
  }

  lemma InLeaves(s: M.State, n: nat, k: nat)
    requires OwnedOnce(s, n) && k < |s.inQ|
    ensures Nowhere(LeftIn(s, k), s.inQ[k].pair)
  {
    var p := s.inQ[k].pair;
    M.PairsTakeAt(s.inQ, k, p);
    assert M.Places(s, p) == M.Places(LeftIn(s, k), p) + 1;
    NoPlaces(LeftIn(s, k), p);
  }

  /** What a packet of the host comes to. */
  ghost function AfterPacket(cfg: M.Config, s: M.State, packet: Packet): M.State
    requires s.outQ != []
  {
    var got := Concat(s.filling + [packet]);
    var p := s.outQ[0];
    if |got| > cfg.buflen then var l := LeftOut(s, 0); l.(failing := l.failing + [p])
    else if |packet| < cfg.mps || |got| == cfg.buflen then
      var l := LeftOut(s, 0); l.(outDone := l.outDone + [M.Transfer(p, got, false)])
    else s.(filling := s.filling + [packet])
  }

  lemma PacketReceived(cfg: M.Config, s: M.State, n: nat, packet: Packet)
    requires cfg.mps > 0 && OwnedOnce(s, n) && M.Enabled(cfg, s, M.HostOut(packet))
    ensures Nowhere(LeftOut(s, 0), s.outQ[0])
    ensures ShownAs(M.Receive(cfg, s, packet), AfterPacket(cfg, s, packet), n)
  {
    OutLeaves(s, n, 0);
    OwnedNext(cfg, s, M.HostOut(packet), n);
    assert s.outQ[..0] + s.outQ[1..] == s.outQ[1..];
  }

  /** What a packet read by the host comes to. */
  ghost function AfterRead(cfg: M.Config, s: M.State): M.State
    requires cfg.mps > 0 && s.inQ != []
  {
    if s.emitted + 1 < |M.Packets(cfg, s.inQ[0])| then s.(emitted := s.emitted + 1)
    else var l := LeftIn(s, 0); l.(inDone := l.inDone + [s.inQ[0].pair])
  }

  lemma PacketSent(cfg: M.Config, s: M.State, n: nat)
    requires cfg.mps > 0 && OwnedOnce(s, n) && M.Enabled(cfg, s, M.HostIn)
    ensures Nowhere(LeftIn(s, 0), s.inQ[0].pair)
    ensures ShownAs(M.Send(cfg, s), AfterRead(cfg, s), n)
  {
    InLeaves(s, n, 0);
    OwnedNext(cfg, s, M.HostIn, n);
    assert s.inQ[..0] + s.inQ[1..] == s.inQ[1..];
  }

  lemma OutAborts(cfg: M.Config, s: M.State, n: nat, k: nat)
    requires cfg.mps > 0 && OwnedOnce(s, n) && k < |s.outQ|
    ensures var l := LeftOut(s, k);
            Nowhere(l, s.outQ[k]) && ShownAs(M.DropOut(s, k), l.(failing := l.failing + [s.outQ[k]]), n)
  {
    OutLeaves(s, n, k);
    OwnedNext(cfg, s, M.AbortOut(k), n);
  }

  lemma InAborts(cfg: M.Config, s: M.State, n: nat, k: nat)
    requires cfg.mps > 0 && OwnedOnce(s, n) && k < |s.inQ|
    ensures var l := LeftIn(s, k);
            Nowhere(l, s.inQ[k].pair) && ShownAs(M.DropIn(s, k), l.(failing := l.failing + [s.inQ[k].pair]), n)
  {
    InLeaves(s, n, k);
    OwnedNext(cfg, s, M.AbortIn(k), n);
  }

  lemma OwnedNext(cfg: M.Config, s: M.State, step: M.Step, n: nat)
    requires cfg.mps > 0 && M.Enabled(cfg, s, step) && OwnedOnce(s, n)
    ensures OwnedOnce(M.Next(cfg, s, step), n)
  {
    forall p: nat
      ensures M.Places(M.Next(cfg, s, step), p) == if p < n then 1 else 0
    {
      M.PlacesStep(cfg, s, step, p);
    }
  }

  lemma OwnedPrimed(n: nat)
    ensures OwnedOnce(M.Primed(n), n)
  {
    forall p: nat
      ensures M.Places(M.Primed(n), p) == if p < n then 1 else 0
    {
      M.CountUpto(n, p);
    }
  }

  lemma PrimedNext(n: nat)
    ensures M.Primed(n + 1) == M.Primed(n).(outQ := M.Primed(n).outQ + [n])
    ensures M.Primed(n).freed == [] && M.Primed(n).outEnabled
  {
    assert M.Upto(n + 1) == M.Upto(n) + [n];
  }

  lemma LinkedHow(o: UsbRequest, i: UsbRequest, k: nat, buflen: nat)
    requires Linked(o, i, k, buflen)
    ensures o.pair == i.pair == k && !o.forIn && i.forIn && o.buf != null
  {
  }

  lemma AllFreed(s: M.State, n: nat)
    requires OwnedOnce(s, n) && M.Live(s) == 0
    ensures forall k: nat | k < n :: k in s.freed
  {
    forall k: nat | k < n
      ensures k in s.freed
    {
      assert M.Places(s, k) == 1;
      CountZero(s.freed, k);
    }
  }

  // ----- The driver and its controller

  class Loopback {
    const inEp: Endpoint
    const outEp: Endpoint
    const qlen: nat
    const buflen: nat
    const mps: nat
    var failed: seq<UsbRequest>         // completed with an error and not yet reported
    ghost var outReq: seq<UsbRequest>   // the requests of each pair set up since enabling
    ghost var inReq: seq<UsbRequest>
    ghost var outs: set<nat>            // the pairs whose OUT request, IN request and
    ghost var ins: set<nat>             // buffer are allocated
    ghost var bufs: set<nat>
    ghost var arrays: set<array<byte>>  // their buffers, and whose each one is
    ghost var home: map<array<byte>, nat>
    ghost var m: M.State

    constructor (qlen: nat, buflen: nat, mps: nat)
      requires mps > 0
      ensures Valid() && this.qlen == qlen && this.buflen == buflen && this.mps == mps
      ensures m == M.IDLE && outReq == [] && fresh(inEp) && fresh(outEp)
    {
      inEp := new Endpoint();
      outEp := new Endpoint();
      this.qlen, this.buflen, this.mps := qlen, buflen, mps;
      failed, outReq, inReq, outs, ins, bufs, m := [], [], [], {}, {}, {}, M.IDLE;
      arrays, home := {}, map[];
    }

    ghost function Cfg(): M.Config { M.Config(qlen, buflen, mps) }

    ghost predicate Links()
      reads this`outReq, this`inReq, this`arrays, this`home
      reads outReq`context, inReq`context, outReq`buf, inReq`buf, outReq`length
    {
      && |outReq| == |inReq| && home.Keys == arrays
      && (forall k | 0 <= k < |outReq| :: Linked(outReq[k], inReq[k], k, buflen))
      && (forall k | 0 <= k < |outReq| :: Owns(outReq[k].buf, k))
    }

    ghost predicate Owns(a: array?<byte>, k: nat)
      reads this`arrays, this`home
    {
      a != null && a in arrays && a in home && home[a] == k
    }

    /** What is allocated is what has not been freed. */
    ghost predicate Booked(freed: seq<nat>)
      reads this`outReq, this`outs, this`ins, this`bufs
    {
      && outs == ins == bufs
      && (forall k: nat :: k in outs <==> k < |outReq| && k !in freed)
    }

    /** out_ep holds the OUT requests of the pairs in q. */
    ghost predicate OutQueued(q: seq<nat>)
      reads this`outReq, outEp`queue
    {
      && |q| == |outEp.queue|
      && (forall j | 0 <= j < |q| :: q[j] < |outReq| && outEp.queue[j] == outReq[q[j]])
    }

    /** The controller has received got for the first of them. */
    ghost predicate Received(q: seq<nat>, got: Bytes)
      reads this`outReq, this`arrays, outEp`position, outReq`buf, arrays
    {
      && outEp.position == |got| && (q == [] ==> got == [])
      && (q != [] && q[0] < |outReq| ==> var a := outReq[q[0]].buf;
            a != null && a in arrays && |got| <= a.Length && a[..|got|] == got)
    }

    /** in_ep holds the IN requests of the pairs in q, carrying the data in q. */
    ghost predicate InQueued(q: seq<M.Transfer>)
      reads this`inReq, this`arrays, inEp`queue, inReq`buf, inReq`length, inReq`zero, arrays
    {
      && |q| == |inEp.queue|
      && (forall j | 0 <= j < |q| :: InAt(inEp.queue[j], q[j]))
    }

    ghost predicate InAt(r: UsbRequest, t: M.Transfer)
      reads this`inReq, this`arrays, inReq`buf, inReq`length, inReq`zero, arrays
    {
      t.pair < |inReq| && r == inReq[t.pair] && r.buf in arrays && Carries(r, t)
    }

    /** Those the controller has finished hold the data in ts. */
    ghost predicate OutFinished(ts: seq<M.Transfer>)
      reads this`outReq, this`arrays, outEp`done, outReq`buf, outReq`actual, outReq`status, arrays
    {
      && |ts| == |outEp.done|
      && (forall j | 0 <= j < |ts| :: FinishedAt(outEp.done[j], ts[j]))
    }

    ghost predicate FinishedAt(r: UsbRequest, t: M.Transfer)
      reads this`outReq, this`arrays, outReq`buf, outReq`actual, outReq`status, arrays
    {
      t.pair < |outReq| && r == outReq[t.pair] && r.buf in arrays && Holds(r, t)
    }

    ghost predicate InFinished(ps: seq<nat>)
      reads this`inReq, inEp`done, inReq`status
    {
      && |ps| == |inEp.done|
      && (forall j | 0 <= j < |ps| ::
            ps[j] < |inReq| && inEp.done[j] == inReq[ps[j]] && inReq[ps[j]].status == 0)
    }

    ghost predicate Failing(ps: seq<nat>)
      reads this`outReq, this`inReq, this`failed, failed`status
    {
      && |ps| == |failed|
      && (forall j | 0 <= j < |ps| :: failed[j].status != 0 && IsRequest(failed[j], ps[j]))
    }

    ghost predicate IsRequest(r: UsbRequest, p: nat)
      reads this`outReq, this`inReq
    {
      && p < |outReq| && p < |inReq| && r.pair == p
      && (r == if r.forIn then inReq[p] else outReq[p])
    }

    ghost predicate OutSide(enabled: bool, q: seq<nat>, got: Bytes, done: seq<M.Transfer>)
      reads this`outReq, this`arrays, outEp, outReq`buf, outReq`actual, outReq`status, arrays
    {
      enabled == outEp.enabled && OutQueued(q) && Received(q, got) && OutFinished(done)
    }

    ghost predicate InSide(enabled: bool, q: seq<M.Transfer>, emitted: nat, done: seq<nat>)
      reads this`inReq, this`arrays, inEp, inReq`buf, inReq`length, inReq`zero, inReq`status, arrays
    {
      && enabled == inEp.enabled && InQueued(q) && InFinished(done)
      && inEp.position == emitted && (q == [] ==> emitted == 0)
    }

    /** The heap is in state s, whatever is allocated. */
    ghost predicate Shape(s: M.State)
      reads this`outReq, this`inReq, this`failed, this`arrays, this`home
      reads outEp, inEp, outReq, inReq, failed`status, arrays
    {
      && inEp != outEp && mps > 0 && Links()
      && OutSide(s.outEnabled, s.outQ, Concat(s.filling), s.outDone)
      && InSide(s.inEnabled, s.inQ, s.emitted, s.inDone)
      && Failing(s.failing)
    }

    ghost predicate Heap(s: M.State)
      reads this`outReq, this`inReq, this`failed, this`arrays, this`home, this`outs, this`ins, this`bufs
      reads outEp, inEp, outReq, inReq, failed`status, arrays
    {
      Shape(s) && Booked(s.freed)
    }

    ghost predicate Valid()
      reads this, outEp, inEp, outReq, inReq, failed`status, arrays
    {
      Heap(m) && OwnedOnce(m, |outReq|)
    }

    lemma PairOf(s: M.State, r: UsbRequest)
      requires Heap(s) && IsRequest(r, r.pair)
      ensures var o, i := outReq[r.pair], inReq[r.pair];
              && Linked(o, i, r.pair, buflen) && Owns(o.buf, r.pair)
              && r.context == (if r.forIn then o else i) && (r == if r.forIn then i else o)
              && o.pair == i.pair == r.pair && !o.forIn && i.forIn && inEp != outEp
    {
    }

    // ----- The driver's actions, each from one state of the heap to the next

    /** usb_ep_free_request */
    method FreeRequest(r: UsbRequest)
      requires r.pair in (if r.forIn then ins else outs)
      modifies this`ins, this`outs
      ensures ins == if r.forIn then old(ins) - {r.pair} else old(ins)
      ensures outs == if r.forIn then old(outs) else old(outs) - {r.pair}
    {
      if r.forIn {
        ins := ins - {r.pair};
      } else {
        outs := outs - {r.pair};
      }
    }

    /** free_ep_req: the buffer, then the request. */
    method FreeEpReq(r: UsbRequest)
      requires r.pair in bufs && r.pair in (if r.forIn then ins else outs)
      modifies this`ins, this`outs, this`bufs
      ensures bufs == old(bufs) - {r.pair}
      ensures ins == if r.forIn then old(ins) - {r.pair} else old(ins)
      ensures outs == if r.forIn then old(outs) else old(outs) - {r.pair}
    {
      bufs := bufs - {r.pair};
      FreeRequest(r);
    }

    /** The error exit of loopback_complete, for either request of a pair. */
    method FreePair(r: UsbRequest, ghost s: M.State)
      requires Heap(s) && IsRequest(r, r.pair) && r.pair !in s.freed
      modifies this`ins, this`outs, this`bufs
      ensures Heap(s.(freed := s.freed + [r.pair]))
    {
      hide Links, OutSide, InSide, Failing;
      PairOf(s, r);
      FreeRequest(r.context);
      FreeEpReq(r);
    }

    /** The IN request of a pair is made to carry what its OUT request received. */
    method Prepare(req: UsbRequest, ghost s: M.State, ghost t: M.Transfer) returns (next: UsbRequest)
      requires Heap(s) && Nowhere(s, req.pair) && IsRequest(req, req.pair) && !req.forIn && Holds(req, t)
      modifies req.context`zero, req.context`length
      ensures Heap(s) && next == inReq[req.pair] && Carries(next, M.Looped(Cfg(), t))
    {
      hide OutSide, Failing, Booked, InFinished;
      PairOf(s, req);
      next := req.context;
      next.zero := req.actual < req.length;
      next.length := req.actual;
    }

    lemma InAtEnd(next: UsbRequest, s: M.State, t: M.Transfer)
      requires Heap(s) && IsRequest(next, t.pair) && next.forIn && Carries(next, t)
      ensures InAt(next, t)
    {
    }

    method QueueIn(next: UsbRequest, fault: int, ghost s: M.State, ghost t: M.Transfer) returns (status: int)
      requires Heap(s) && IsRequest(next, t.pair) && next.forIn && Carries(next, t)
      modifies inEp`queue
      ensures status == (if s.inEnabled then fault else ESHUTDOWN)
      ensures status == 0 ==> Heap(s.(inQ := s.inQ + [t]))
      ensures status != 0 ==> Heap(s)
    {
      hide Links, OutSide, Failing, Booked, InFinished, InAt;
      InAtEnd(next, s, t);
      status := inEp.Queue(next, fault);
    }

    method QueueOut(next: UsbRequest, fault: int, ghost s: M.State) returns (status: int)
      requires Heap(s) && IsRequest(next, next.pair) && !next.forIn
      modifies outEp`queue
      ensures status == (if s.outEnabled then fault else ESHUTDOWN)
      ensures status == 0 ==> Heap(s.(outQ := s.outQ + [next.pair]))
      ensures status != 0 ==> Heap(s)
    {
      hide Links, InSide, Failing, Booked, OutFinished;
      PairOf(s, next);
      status := outEp.Queue(next, fault);
    }

    // ----- loopback_complete, for a request of a pair that has left its place in s

    /** A finished OUT request hands its buffer to the IN request of the pair. */
    method LoopOut(req: UsbRequest, fault: int, ghost s: M.State, ghost t: M.Transfer)
      requires Heap(s) && Nowhere(s, req.pair) && IsRequest(req, req.pair) && !req.forIn && Holds(req, t)
      modifies this`outs, this`ins, this`bufs, inEp`queue, inReq`zero, inReq`length
      ensures Heap(Completed(Cfg(), s, req.pair, false, 0, fault, t))
    {
      hide Heap;
      PairOf(s, req);
      var next := Prepare(req, s, t);
      var status := QueueIn(next, fault, s, M.Looped(Cfg(), t));
      if status != 0 {
        FreePair(next, s);
      }
    }

    /** A finished IN request hands the buffer back. */
    method LoopIn(req: UsbRequest, fault: int, ghost s: M.State)
      requires Heap(s) && Nowhere(s, req.pair) && IsRequest(req, req.pair) && req.forIn
      modifies this`outs, this`ins, this`bufs, outEp`queue
      ensures forall t :: Heap(Completed(Cfg(), s, req.pair, true, 0, fault, t))
    {
      hide Heap;
      PairOf(s, req);
      var next := req.context;
      var status := QueueOut(next, fault, s);
      if status != 0 {
        FreePair(next, s);
      }
    }

    /** loopback_complete; t is what a finished OUT request holds. */
    method Complete(ep: Endpoint, req: UsbRequest, fault: int, ghost s: M.State, ghost t: M.Transfer)
      requires Heap(s) && Nowhere(s, req.pair) && IsRequest(req, req.pair)
      requires ep == (if req.forIn then inEp else outEp)
      requires req.status == 0 && !req.forIn ==> Holds(req, t)
      modifies this`outs, this`ins, this`bufs, inEp`queue, outEp`queue, inReq`zero, inReq`length
      ensures Heap(Completed(Cfg(), s, req.pair, req.forIn, req.status, fault, t))
    {
      hide Heap;
      PairOf(s, req);
      if req.status == 0 {
        if ep == outEp {
          LoopOut(req, fault, s, t);
        } else {
          LoopIn(req, fault, s);
        }
      } else {
        FreePair(req, s);
      }
    }

    // ----- The controller reports completed requests

    ghost method Become(s: M.State, m': M.State)
      requires Heap(s) && ShownAs(m', s, |outReq|)
      modifies this`m
      ensures Valid() && m == m'
    {
      hide Links, OutSide, InSide, Failing, Booked;
      m := m';
    }

    lemma FirstFinished(s: M.State)
      requires Heap(s) && s.outDone != []
      ensures var t := s.outDone[0];
              && |outEp.done| == |s.outDone| && FinishedAt(outEp.done[0], t) && IsRequest(outEp.done[0], t.pair)
              && !outEp.done[0].forIn
    {
      assert FinishedAt(outEp.done[0], s.outDone[0]);
    }

    method TakeOutDone(ghost s: M.State) returns (req: UsbRequest)
      requires Heap(s) && s.outDone != []
      modifies outEp`done
      ensures Heap(LeftOutDone(s)) && inEp != outEp
      ensures var t := s.outDone[0];
              req.pair == t.pair && IsRequest(req, t.pair) && !req.forIn && req.status == 0 && Holds(req, t)
    {
      hide Links, InSide, Failing, Booked, OutQueued, Received;
      FirstFinished(s);
      req := outEp.done[0];
      outEp.done := outEp.done[1..];
    }

    lemma FinishedIn(s: M.State, k: nat)
      requires Heap(s) && k < |s.inDone|
      ensures |inEp.done| == |s.inDone| && IsRequest(inEp.done[k], s.inDone[k])
      ensures inEp.done[k].forIn && inEp.done[k].status == 0
    {
      assert inEp.done[k] == inReq[s.inDone[k]];
    }

    method TakeInDone(k: nat, ghost s: M.State) returns (req: UsbRequest)
      requires Heap(s) && k < |s.inDone|
      modifies inEp`done
      ensures Heap(LeftInDone(s, k)) && inEp != outEp
      ensures req.pair == s.inDone[k] && IsRequest(req, s.inDone[k]) && req.forIn && req.status == 0
    {
      hide Links, OutSide, Failing, Booked, InQueued;
      FinishedIn(s, k);
      req := inEp.done[k];
      inEp.done := inEp.done[..k] + inEp.done[k + 1..];
    }

    method TakeFailed(k: nat, ghost s: M.State) returns (req: UsbRequest)
      requires Heap(s) && k < |s.failing|
      modifies this`failed
      ensures Heap(LeftFailing(s, k))
      ensures req.pair == s.failing[k] && IsRequest(req, s.failing[k]) && req.status != 0
    {
      hide Links, OutSide, InSide, Booked;
      req := failed[k];
      failed := failed[..k] + failed[k + 1..];
    }

    lemma Working(s: M.State)
      requires Heap(s)
      ensures mps > 0 && inEp != outEp
    {
    }

    lemma Sizes(s: M.State)
      requires Heap(s)
      ensures |outEp.queue| == |s.outQ| && |inEp.queue| == |s.inQ|
      ensures |outEp.done| == |s.outDone| && |inEp.done| == |s.inDone| && |failed| == |s.failing|
      ensures outEp.enabled == s.outEnabled && inEp.enabled == s.inEnabled
    {
    }

    /** The completion routine runs for the first finished OUT request. */
    method CompleteOut(fault: int)
      requires Valid() && m.outDone != []
      modifies this`m, this`outs, this`ins, this`bufs, inEp`queue, outEp`queue, outEp`done, inReq`zero, inReq`length
      ensures Valid() && m == M.LoopOut(Cfg(), old(m), fault == 0)
    {
      hide Heap, OwnedOnce, Nowhere, ShownAs, Completed, M.LoopOut;
      ghost var was, t := m, m.outDone[0];
      Working(was);
      OutDoneCompletes(Cfg(), was, |outReq|, fault);
      var req := TakeOutDone(was);
      Complete(outEp, req, fault, LeftOutDone(was), t);
      Become(Completed(Cfg(), LeftOutDone(was), t.pair, false, 0, fault, t), M.LoopOut(Cfg(), was, fault == 0));
    }

    /** The completion routine runs for a finished IN request. */
    method CompleteIn(k: nat, fault: int)
      requires Valid() && k < |m.inDone|
      modifies this`m, this`outs, this`ins, this`bufs, inEp`queue, outEp`queue, inEp`done, inReq`zero, inReq`length
      ensures Valid() && m == M.LoopIn(old(m), k, fault == 0)
    {
      hide Heap, OwnedOnce, Nowhere, ShownAs, Completed, M.LoopIn;
      ghost var was, t := m, M.Transfer(0, [], false);
      Working(was);
      InDoneCompletes(Cfg(), was, |outReq|, k, fault, t);
      var req := TakeInDone(k, was);
      Complete(inEp, req, fault, LeftInDone(was, k), t);
      Become(Completed(Cfg(), LeftInDone(was, k), was.inDone[k], true, 0, fault, t), M.LoopIn(was, k, fault == 0));
    }

    /** The completion routine runs for a failed request. */
    method CompleteFailed(k: nat)
      requires Valid() && k < |m.failing|
      modifies this`m, this`outs, this`ins, this`bufs, inEp`queue, outEp`queue, this`failed, inReq`zero, inReq`length
      ensures Valid() && m == M.Free(old(m), k)
    {
      hide Heap, OwnedOnce, Nowhere, ShownAs, Completed, M.Free;
      ghost var was, t := m, M.Transfer(0, [], false);
      Working(was);
      FailedCompletes(Cfg(), was, |outReq|, k, t);
      var req := TakeFailed(k, was);
      Complete(if req.forIn then inEp else outEp, req, 0, LeftFailing(was, k), t);
      Become(Completed(Cfg(), LeftFailing(was, k), req.pair, req.forIn, req.status, 0, t), M.Free(was, k));
    }

    // ----- The controller works on the first requests

    /** Bytes put into the buffer of pair p do not show in any other pair's. */
    method Put(a: array<byte>, at: nat, packet: Packet, ghost p: nat, ghost s: M.State)
      requires Links() && InQueued(s.inQ) && OutFinished(s.outDone)
      requires Owns(a, p) && at + |packet| <= a.Length
      requires (forall j | 0 <= j < |s.inQ| :: s.inQ[j].pair != p)
      requires (forall j | 0 <= j < |s.outDone| :: s.outDone[j].pair != p)
      modifies a
      ensures a[..at + |packet|] == old(a[..at]) + packet
      ensures InQueued(s.inQ) && OutFinished(s.outDone)
    {
      forall j | 0 <= j < |packet| {
        a[at + j] := packet[j];
      }
    }

    lemma FirstQueued(s: M.State)
      requires Heap(s) && s.outQ != []
      ensures |outEp.queue| == |s.outQ| && IsRequest(outEp.queue[0], s.outQ[0]) && !outEp.queue[0].forIn
      ensures Owns(outEp.queue[0].buf, s.outQ[0]) && outEp.queue[0].buf.Length == buflen
      ensures outEp.position == |Concat(s.filling)|
      ensures outEp.position <= buflen && outEp.queue[0].buf[..outEp.position] == Concat(s.filling)
    {
      assert outEp.queue[0] == outReq[s.outQ[0]];
    }

    /** A packet of the host goes into the buffer of the first OUT request. */
    method Write(packet: Packet, ghost s: M.State)
      requires Heap(s) && s.outQ != [] && Nowhere(LeftOut(s, 0), s.outQ[0])
      requires outEp.position + |packet| <= buflen
      modifies outEp`position, arrays
      ensures Heap(s.(filling := s.filling + [packet]))
      ensures outEp.position == |Concat(s.filling + [packet])|
    {
      hide Links, InFinished, Failing, Booked, InQueued, OutFinished;
      FirstQueued(s);
      ConcatLast(s.filling, packet);
      Put(outEp.queue[0].buf, outEp.position, packet, s.outQ[0], s);
      outEp.position := outEp.position + |packet|;
    }

    method TakeQueuedOut(k: nat, ghost s: M.State) returns (req: UsbRequest)
      requires Heap(s) && k < |s.outQ|
      modifies outEp`queue, outEp`position
      ensures Heap(LeftOut(s, k))
      ensures req.pair == s.outQ[k] && IsRequest(req, s.outQ[k]) && !req.forIn && req == old(outEp.queue[k])
    {
      hide InSide, Failing, Booked, OutFinished;
      req := outEp.Take(k);
    }

    method TakeQueuedIn(k: nat, ghost s: M.State) returns (req: UsbRequest)
      requires Heap(s) && k < |s.inQ|
      modifies inEp`queue, inEp`position
      ensures Heap(LeftIn(s, k))
      ensures req.pair == s.inQ[k].pair && IsRequest(req, s.inQ[k].pair) && req.forIn && req == old(inEp.queue[k])
    {
      hide Links, OutSide, Failing, Booked, InFinished;
      QueuedIn(s, k);
      req := inEp.Take(k);
    }

    lemma QueuedIn(s: M.State, k: nat)
      requires Heap(s) && k < |s.inQ|
      ensures |inEp.queue| == |s.inQ| && IsRequest(inEp.queue[k], s.inQ[k].pair) && inEp.queue[k].forIn
      ensures Carries(inEp.queue[k], s.inQ[k])
    {
      assert InAt(inEp.queue[k], s.inQ[k]);
    }

    /** The controller ends a request that is on no queue; nothing else shows it. */
    method End(req: UsbRequest, n: nat, status: int, ghost s: M.State)
      requires Heap(s) && Nowhere(s, req.pair) && IsRequest(req, req.pair)
      modifies req`actual, req`status
      ensures Heap(s) && req.actual == n && req.status == status
    {
      hide Booked, InQueued, OutQueued, Received;
      PairOf(s, req);
      req.actual, req.status := n, status;
    }

    /** An OUT request ends with status 0 and n bytes. */
    method FinishOut(req: UsbRequest, n: nat, ghost s: M.State, ghost t: M.Transfer)
      requires Heap(s) && Nowhere(s, req.pair) && IsRequest(req, req.pair) && !req.forIn
      requires req.buf != null && n <= req.buf.Length && t == M.Transfer(req.pair, req.buf[..n], false)
      modifies req`actual, req`status, outEp`done
      ensures Heap(s.(outDone := s.outDone + [t]))
    {
      hide Links, InSide, Failing, Booked, OutQueued, Received;
      PairOf(s, req);
      End(req, n, 0, s);
      assert FinishedAt(req, t);
      outEp.done := outEp.done + [req];
    }

    /** An IN request ends with status 0. */
    method FinishIn(req: UsbRequest, ghost s: M.State)
      requires Heap(s) && Nowhere(s, req.pair) && IsRequest(req, req.pair) && req.forIn
      modifies req`actual, req`status, inEp`done
      ensures Heap(s.(inDone := s.inDone + [req.pair]))
    {
      hide Links, OutSide, Failing, Booked, InQueued;
      PairOf(s, req);
      End(req, req.length, 0, s);
      inEp.done := inEp.done + [req];
    }

    /** A request ends with an error. */
    method Fail(req: UsbRequest, error: int, ghost s: M.State)
      requires Heap(s) && Nowhere(s, req.pair) && IsRequest(req, req.pair) && error != 0
      modifies req`actual, req`status, this`failed
      ensures Heap(s.(failing := s.failing + [req.pair]))
    {
      hide Links, OutSide, InSide, Booked;
      End(req, req.actual, error, s);
      failed := failed + [req];
    }

    // ----- The controller's steps

    /** The host writes a packet. */
    method HostOut(packet: Packet)
      requires Valid() && M.Enabled(Cfg(), m, M.HostOut(packet))
      modifies this`m, this`failed, outEp, outReq`actual, outReq`status, arrays
      ensures Valid() && m == M.Receive(Cfg(), old(m), packet)
    {
      hide Heap, OwnedOnce, Nowhere, ShownAs, M.Receive;
      ghost var was, p := m, m.outQ[0];
      ghost var more := was.(filling := was.filling + [packet]);
      Working(was);
      PacketReceived(Cfg(), was, |outReq|, packet);
      FirstQueued(was);
      ConcatLast(was.filling, packet);
      assert LeftOut(more, 0) == LeftOut(was, 0);
      if outEp.position + |packet| > buflen {
        var req := TakeQueuedOut(0, was);
        Fail(req, EOVERFLOW, LeftOut(was, 0));
      } else {
        Write(packet, was);
        var n := outEp.position;
        if |packet| < mps || n == buflen {
          FirstQueued(more);
          var req := TakeQueuedOut(0, more);
          FinishOut(req, n, LeftOut(more, 0), M.Transfer(p, Concat(more.filling), false));
        }
      }
      Become(AfterPacket(Cfg(), was, packet), M.Receive(Cfg(), was, packet));
    }

    method Advance(ghost s: M.State)
      requires Heap(s) && s.inQ != []
      modifies inEp`position
      ensures Heap(s.(emitted := s.emitted + 1))
    {
      hide Links, OutSide, Failing, Booked, InQueued, InFinished;
      inEp.position := inEp.position + 1;
    }

    lemma FirstToSend(s: M.State)
      requires Heap(s) && s.inQ != []
      ensures |inEp.queue| == |s.inQ| && Carries(inEp.queue[0], s.inQ[0]) && inEp.position == s.emitted
    {
      QueuedIn(s, 0);
    }

    /** The host reads a packet. */
    method HostIn() returns (packet: Packet)
      requires Valid() && M.Enabled(Cfg(), m, M.HostIn)
      modifies this`m, inEp, inReq`actual, inReq`status
      ensures Valid() && m == M.Send(Cfg(), old(m))
      ensures packet == M.Packets(Cfg(), old(m).inQ[0])[old(m).emitted]
    {
      hide Heap, OwnedOnce, Nowhere, ShownAs, M.Send;
      ghost var was := m;
      Working(was);
      PacketSent(Cfg(), was, |outReq|);
      FirstToSend(was);
      var first := inEp.queue[0];
      var packets := Emit(first.buf[..first.length], first.zero, mps);
      packet := packets[inEp.position];
      if inEp.position + 1 < |packets| {
        Advance(was);
      } else {
        var req := TakeQueuedIn(0, was);
        FinishIn(req, LeftIn(was, 0));
      }
      Become(AfterRead(Cfg(), was), M.Send(Cfg(), was));
    }

    /** A queued OUT request is taken off with an error. */
    method AbortOut(k: nat, error: int)
      requires Valid() && k < |m.outQ| && error != 0
      modifies this`m, this`failed, outEp`queue, outEp`position, outReq`actual, outReq`status
      ensures Valid() && m == M.DropOut(old(m), k)
    {
      hide Heap, OwnedOnce, Nowhere, ShownAs, M.DropOut;
      ghost var was := m;
      Working(was);
      OutAborts(Cfg(), was, |outReq|, k);
      var req := TakeQueuedOut(k, was);
      Fail(req, error, LeftOut(was, k));
      ghost var l := LeftOut(was, k);
      Become(l.(failing := l.failing + [was.outQ[k]]), M.DropOut(was, k));
    }

    /** A queued IN request is taken off with an error. */
    method AbortIn(k: nat, error: int)
      requires Valid() && k < |m.inQ| && error != 0
      modifies this`m, this`failed, inEp`queue, inEp`position, inReq`actual, inReq`status
      ensures Valid() && m == M.DropIn(old(m), k)
    {
      hide Heap, OwnedOnce, Nowhere, ShownAs, M.DropIn;
      ghost var was := m;
      Working(was);
      InAborts(Cfg(), was, |outReq|, k);
      var req := TakeQueuedIn(k, was);
      Fail(req, error, LeftIn(was, k));
      ghost var l := LeftIn(was, k);
      Become(l.(failing := l.failing + [was.inQ[k].pair]), M.DropIn(was, k));
    }

    // ----- Disabling

    lemma OwnedFlags(s: M.State, n: nat, outEnabled: bool, inEnabled: bool)
      requires OwnedOnce(s, n)
      ensures ShownAs(s.(outEnabled := outEnabled, inEnabled := inEnabled),
                   s.(outEnabled := outEnabled, inEnabled := inEnabled), n)
    {
      forall p: nat
        ensures M.Places(s.(outEnabled := outEnabled, inEnabled := inEnabled), p) == M.Places(s, p)
      {
      }
    }

    method SetOut(enabled: bool)
      requires Valid()
      modifies this`m, outEp`enabled
      ensures Valid() && m == old(m).(outEnabled := enabled)
    {
      hide Links, InSide, Failing, Booked, OutQueued, Received, OutFinished, OwnedOnce, ShownAs;
      OwnedFlags(m, |outReq|, enabled, m.inEnabled);
      outEp.enabled := enabled;
      Become(m.(outEnabled := enabled), m.(outEnabled := enabled));
    }

    method SetIn(enabled: bool)
      requires Valid()
      modifies this`m, inEp`enabled
      ensures Valid() && m == old(m).(inEnabled := enabled)
    {
      hide Links, OutSide, Failing, Booked, InQueued, InFinished, OwnedOnce, ShownAs;
      OwnedFlags(m, |outReq|, m.outEnabled, enabled);
      inEp.enabled := enabled;
      Become(m.(inEnabled := enabled), m.(inEnabled := enabled));
    }

    /** usb_ep_disable on out_ep completes the first queued request with -ESHUTDOWN. */
    method ShutDownFirstOut()
      requires Valid() && m.outQ != []
      modifies this`m, this`outs, this`ins, this`bufs, this`failed, inEp`queue, outEp`queue, outEp`position
      modifies inReq`zero, inReq`length, outReq`actual, outReq`status
      ensures Valid() && m == ShutOut(old(m))
    {
      hide Heap, OwnedOnce;
      AbortOut(0, ESHUTDOWN);
      Sizes(m);
      CompleteFailed(|failed| - 1);
    }

    method ShutDownFirstIn()
      requires Valid() && m.inQ != []
      modifies this`m, this`outs, this`ins, this`bufs, this`failed, inEp`queue, outEp`queue, inEp`position
      modifies inReq`zero, inReq`length, inReq`actual, inReq`status
      ensures Valid() && m == ShutIn(old(m))
    {
      hide Heap, OwnedOnce;
      AbortIn(0, ESHUTDOWN);
      Sizes(m);
      CompleteFailed(|failed| - 1);
    }

    method FlushOut()
      requires Valid() && !m.outEnabled
      modifies this`m, this`outs, this`ins, this`bufs, this`failed, inEp`queue, outEp`queue, outEp`position
      modifies inReq`zero, inReq`length, outReq`actual, outReq`status
      ensures Valid() && m == FlushedOut(old(m), old(m).outQ, [])
    {
      hide Heap, OwnedOnce;
      ghost var was, gone := m, [];
      Sizes(m);
      while outEp.queue != []
        invariant Valid() && |outEp.queue| == |m.outQ|
        invariant gone + m.outQ == was.outQ && m == FlushedOut(was, gone, m.outQ)
        decreases |outEp.queue|
      {
        ghost var q := m.outQ;
        FlushedOutNext(was, gone, q);
        ShutDownFirstOut();
        Sizes(m);
        gone := gone + [q[0]];
      }
    }

    method FlushIn()
      requires Valid() && !m.inEnabled
      modifies this`m, this`outs, this`ins, this`bufs, this`failed, inEp`queue, outEp`queue, inEp`position
      modifies inReq`zero, inReq`length, inReq`actual, inReq`status
      ensures Valid() && m == FlushedIn(old(m), old(m).inQ, [])
    {
      hide Heap, OwnedOnce, FlushedIn, M.Pairs;
      ghost var was, gone := m, [];
      Sizes(m);
      FlushedInStart(m);
      while inEp.queue != []
        invariant Valid() && |inEp.queue| == |m.inQ|
        invariant gone + m.inQ == was.inQ && m == FlushedIn(was, gone, m.inQ)
        decreases |inEp.queue|
      {
        ghost var q := m.inQ;
        FlushedInNext(was, gone, q);
        ShutDownFirstIn();
        Sizes(m);
        gone := gone + [q[0]];
      }
      assert m.inQ == [] && gone == was.inQ;
    }

    /** usb_ep_disable on out_ep. */
    method DisableOut()
      requires Valid()
      modifies this`m, this`outs, this`ins, this`bufs, this`failed, inEp`queue
      modifies outEp`queue, outEp`position, outEp`enabled, inReq`zero, inReq`length, outReq`actual, outReq`status
      ensures Valid() && m == FlushedOut(old(m).(outEnabled := false), old(m).outQ, [])
    {
      hide Heap, OwnedOnce;
      SetOut(false);
      FlushOut();
    }

    /** usb_ep_disable on in_ep. */
    method DisableIn()
      requires Valid()
      modifies this`m, this`outs, this`ins, this`bufs, this`failed, outEp`queue
      modifies inEp`queue, inEp`position, inEp`enabled, inReq`zero, inReq`length, inReq`actual, inReq`status
      ensures Valid() && m == FlushedIn(old(m).(inEnabled := false), old(m).inQ, [])
    {
      hide Heap, OwnedOnce;
      SetIn(false);
      FlushIn();
    }

    /** The completion routines that were under way run. */
    method Settle()
      requires Valid() && M.Disabled(m) && m.outQ == [] && m.inQ == []
      modifies this`m, this`outs, this`ins, this`bufs, this`failed
      modifies inEp`queue, outEp`queue, inEp`done, outEp`done, inReq`zero, inReq`length
      ensures Valid() && M.Disabled(m) && M.Live(m) == 0
    {
      hide Heap, OwnedOnce;
      Sizes(m);
      while outEp.done != []
        invariant Valid() && M.Disabled(m) && m.outQ == [] && m.inQ == [] && |outEp.done| == |m.outDone|
        decreases |outEp.done|
      {
        CompleteOut(0);
        Sizes(m);
      }
      Sizes(m);
      while inEp.done != []
        invariant Valid() && M.Disabled(m) && m.outQ == [] && m.inQ == [] && m.outDone == []
        invariant |inEp.done| == |m.inDone|
        decreases |inEp.done|
      {
        CompleteIn(0, 0);
        Sizes(m);
      }
      Sizes(m);
      while failed != []
        invariant Valid() && M.Disabled(m) && m.outQ == [] && m.inQ == [] && m.outDone == [] && m.inDone == []
        invariant |failed| == |m.failing|
        decreases |failed|
      {
        CompleteFailed(0);
        Sizes(m);
      }
    }

    /** disable_loopback; usb_ep_disable returns only when every completion has run, so
        nothing stays allocated, whatever was queued or under way. */
    method DisableLoopback()
      requires Valid()
      modifies this`m, this`outs, this`ins, this`bufs, this`failed, inEp, outEp
      modifies inReq`zero, inReq`length, inReq`actual, inReq`status, outReq`actual, outReq`status
      ensures Valid() && M.Disabled(m) && M.Live(m) == 0 && outs == ins == bufs == {}
    {
      hide Heap, OwnedOnce;
      DisableIn();
      DisableOut();
      Settle();
      NothingLeft();
    }

    lemma NothingLeft()
      requires Valid() && M.Live(m) == 0
      ensures outs == ins == bufs == {}
    {
      AllFreed(m, |outReq|);
      assert forall k: nat :: k !in outs;
    }

    // ----- Enabling

    /** A new pair joins the others, queued nowhere yet. */
    ghost method Enrol(o: UsbRequest, i: UsbRequest)
      requires Shape(M.Primed(|outReq|)) && Linked(o, i, |outReq|, buflen) && o.buf !in arrays && o.buf !in home
      modifies this`outReq, this`inReq, this`arrays, this`home
      ensures Shape(M.Primed(|old(outReq)|)) && IsRequest(o, |old(outReq)|)
      ensures outReq == old(outReq) + [o] && inReq == old(inReq) + [i] && arrays == old(arrays) + {o.buf}
    {
      outReq, inReq := outReq + [o], inReq + [i];
      arrays, home := arrays + {o.buf}, home[o.buf := |outReq| - 1];
    }

    lemma PrimedShape(n: nat)
      requires Shape(M.Primed(n))
      ensures outEp.enabled && inEp != outEp && mps > 0 && |inReq| == |outReq|
    {
    }

    lemma Book(n: nat)
      requires Shape(M.Primed(n)) && outs == ins == bufs && forall k: nat :: k in outs <==> k < |outReq|
      ensures Heap(M.Primed(n))
    {
    }

    /** The second half of a round of alloc_requests: the pair is queued, or everything
        allocated for it is freed again. */
    method QueueFirst(o: UsbRequest, i: UsbRequest, error: int) returns (result: int)
      requires Shape(M.Primed(|outReq|)) && Linked(o, i, |outReq|, buflen) && o.buf !in arrays && o.buf !in home
      requires outs == ins == bufs && forall k: nat :: k in outs <==> k <= |outReq|
      modifies this`m, this`outs, this`ins, this`bufs, this`outReq, this`inReq, this`arrays, this`home, outEp`queue
      ensures Valid() && m == M.Primed(|outReq|) && result == error
      ensures outReq == old(outReq) + (if result == 0 then [o] else [])
      ensures inReq == old(inReq) + (if result == 0 then [i] else [])
      ensures arrays == old(arrays) + (if result == 0 then {o.buf} else {})
    {
      hide Heap, Shape, Linked, OwnedOnce, Booked, M.Primed;
      ghost var n := |outReq|;
      OwnedPrimed(n);
      OwnedPrimed(n + 1);
      LinkedHow(o, i, n, buflen);
      PrimedShape(n);
      PrimedNext(n);
      if error == 0 {
        Enrol(o, i);
        Book(n);
        result := QueueOut(o, error, M.Primed(n));
        m := M.Primed(n + 1);
      } else {
        result := outEp.Queue(o, error);
        FreeEpReq(o);
        FreeRequest(i);
        Book(n);
        m := M.Primed(n);
      }
    }

    /** Allocates the OUT request of a pair with its buffer, and links the two. */
    method AllocMate(i: UsbRequest, ghost n: nat) returns (o: UsbRequest)
      requires i.pair == n && i.forIn
      modifies this`outs, this`bufs, i`buf, i`context
      ensures fresh(o) && Linked(o, i, n, buflen) && fresh(o.buf)
      ensures outs == old(outs) + {n} && bufs == old(bufs) + {n}
    {
      var buf := new byte[buflen];
      o := new UsbRequest(buf, buflen, n, false);
      outs, bufs := outs + {n}, bufs + {n};
      i.buf := o.buf;
      i.context := o;
      o.context := i;
    }

    lemma AllAllocated()
      requires Valid() && m == M.Primed(|outReq|)
      ensures Shape(M.Primed(|outReq|)) && outs == ins == bufs && forall k: nat :: k in outs <==> k < |outReq|
      ensures home.Keys == arrays && |inReq| == |outReq|
    {
    }

    /** One round of alloc_requests. */
    method AllocPair(stage: Option<Stage>) returns (result: int)
      requires Valid() && m == M.Primed(|outReq|)
      requires stage.Some? && stage.value.Queueing? ==> stage.value.error != 0
      modifies this`m, this`outs, this`ins, this`bufs, this`outReq, this`inReq, this`arrays, this`home, outEp`queue
      ensures Valid() && m == M.Primed(|outReq|)
      ensures |outReq| == |old(outReq)| + if result == 0 then 1 else 0
      ensures old(outReq) <= outReq && old(inReq) <= inReq && |inReq| == |outReq|
      ensures forall k | |old(outReq)| <= k < |outReq| :: fresh(outReq[k]) && fresh(inReq[k])
      ensures fresh(arrays - old(arrays))
      ensures result == match stage
                        case None => 0
                        case Some(Queueing(error)) => error
                        case _ => -12
    {
      hide Shape, Linked, OwnedOnce;
      AllAllocated();
      ghost var n := |outReq|;
      if stage == Some(InRequest) {
        return ENOMEM;
      }
      var inNew := new UsbRequest(null, 0, n, true);
      ins := ins + {n};
      if stage == Some(OutRequest) {
        FreeRequest(inNew);
        return ENOMEM;
      }
      var outNew := AllocMate(inNew, n);
      result := QueueFirst(outNew, inNew, if stage.Some? then stage.value.error else 0);
    }

    /** alloc_requests: when round i fails, exactly the i earlier pairs are live. */
    method AllocRequests(fault: Fault) returns (result: int)
      requires Valid() && m == M.Primed(0) && outReq == []
      requires fault.At? && fault.stage.Queueing? ==> fault.stage.error != 0
      modifies this`m, this`outs, this`ins, this`bufs, this`outReq, this`inReq, this`arrays, this`home, outEp`queue
      ensures Valid() && m == M.Primed(|outReq|)
      ensures result == 0 <==> fault.Never? || fault.i >= qlen
      ensures result != 0 ==> result == if fault.stage.Queueing? then fault.stage.error else -12
      ensures |outReq| == if result == 0 then qlen else fault.i
      ensures |inReq| == |outReq| && forall k | 0 <= k < |outReq| :: fresh(outReq[k]) && fresh(inReq[k])
      ensures fresh(arrays - old(arrays))
    {
      hide Heap, OwnedOnce;
      SameLength();
      result := 0;
      var i := 0;
      while i < qlen && result == 0
        invariant i <= qlen && Valid() && m == M.Primed(|outReq|) && |inReq| == |outReq|
        invariant forall k | 0 <= k < |outReq| :: fresh(outReq[k]) && fresh(inReq[k])
        invariant fresh(arrays - old(arrays))
        invariant result == 0 ==> |outReq| == i && (fault.At? ==> i <= fault.i)
        invariant result != 0 ==> fault.At? && fault.i < qlen && |outReq| == fault.i
        invariant result != 0 ==> result == if fault.stage.Queueing? then fault.stage.error else ENOMEM
      {
        result := AllocPair(if fault.At? && fault.i == i then Some(fault.stage) else None);
        i := i + 1;
      }
    }

    lemma SameLength()
      requires Valid()
      ensures |inReq| == |outReq|
    {
    }

    /** Starts numbering the pairs afresh. */
    ghost method Begin()
      requires Valid() && M.Disabled(m) && M.Live(m) == 0
      modifies this`m, this`outReq, this`inReq, this`arrays, this`home
      ensures Valid() && m == M.IDLE && outReq == [] && arrays == {}
    {
      NothingLeft();
      outReq, inReq, arrays, home, m := [], [], {}, map[], M.IDLE;
    }

    lemma PrimedIdle()
      ensures M.IDLE.(inEnabled := true, outEnabled := true) == M.Primed(0)
    {
    }

    /** enable_loopback: all qlen pairs are queued, or nothing is left allocated and
        both endpoints are disabled. */
    method EnableLoopback(inError: int, outError: int, fault: Fault) returns (result: int)
      requires Valid() && M.Disabled(m) && M.Live(m) == 0
      requires fault.At? && fault.stage.Queueing? ==> fault.stage.error != 0
      modifies this`m, this`outs, this`ins, this`bufs, this`failed, this`outReq, this`inReq, this`arrays, this`home
      modifies inEp, outEp
      ensures Valid() && fresh(arrays)
      ensures forall k | 0 <= k < |outReq| :: fresh(outReq[k])
      ensures |inReq| == |outReq| && forall k | 0 <= k < |inReq| :: fresh(inReq[k])
      ensures result == 0 <==> inError == 0 && outError == 0 && (fault.Never? || fault.i >= qlen)
      ensures inError != 0 ==> result == inError
      ensures inError == 0 && outError != 0 ==> result == outError
      ensures inError == 0 && outError == 0 && result != 0 ==>
                result == if fault.stage.Queueing? then fault.stage.error else -12
      ensures result == 0 ==> m == M.Start(Cfg())
      ensures result != 0 ==> M.Disabled(m) && M.Live(m) == 0 && outs == ins == bufs == {}
    {
      hide Heap, OwnedOnce;
      Begin();
      SameLength();
      PrimedIdle();
      if inError != 0 {
        NothingLeft();
        return inError;
      }
      SetIn(true);
      if outError != 0 {
        result := outError;
      } else {
        SetOut(true);
        result := AllocRequests(fault);
        if result == 0 {
          return;
        }
        DisableOut();
      }
      DisableIn();
      NothingLeft();
    }

    /** loopback_set_alt: whatever was queued or under way before, the function starts
        afresh or is left disabled with nothing allocated. */
    method SetAlt(inError: int, outError: int, fault: Fault) returns (result: int)
      requires Valid()
      requires fault.At? && fault.stage.Queueing? ==> fault.stage.error != 0
      modifies this`m, this`outs, this`ins, this`bufs, this`failed, this`outReq, this`inReq, this`arrays, this`home
      modifies inEp, outEp
      modifies inReq`zero, inReq`length, inReq`actual, inReq`status, outReq`actual, outReq`status
      ensures Valid()
      ensures result == 0 <==> inError == 0 && outError == 0 && (fault.Never? || fault.i >= qlen)
      ensures if result == 0 then m == M.Start(Cfg()) else M.Disabled(m) && outs == ins == bufs == {}
    {
      hide Heap, OwnedOnce;
      DisableLoopback();
      result := EnableLoopback(inError, outError, fault);
    }

    // ----- Whole runs

    /** The driver and its controller take any step of the machine; packets are what
        the host reads by it. */
    method Perform(step: M.Step) returns (packets: seq<Packet>)
      requires Valid() && M.Enabled(Cfg(), m, step)
      modifies this`m, this`outs, this`ins, this`bufs, this`failed, inEp, outEp, outReq, inReq, arrays
      ensures Valid() && m == M.Next(Cfg(), old(m), step) && m.read == old(m.read) + packets
    {
      hide Heap, OwnedOnce;
      ghost var was := m;
      Working(m);
      ReadStep(Cfg(), was, step);
      packets := [];
      match step
      case HostOut(packet) => HostOut(packet);
      case HostIn =>
        var packet := HostIn();
        packets := [packet];
      case DisableOut => SetOut(false);
      case DisableIn => SetIn(false);
      case AbortOut(k) => AbortOut(k, if outEp.enabled then ECONNRESET else ESHUTDOWN);
      case AbortIn(k) => AbortIn(k, if inEp.enabled then ECONNRESET else ESHUTDOWN);
      case CompleteOut(accepted) => CompleteOut(if accepted then 0 else EIO);
      case CompleteIn(k, accepted) => CompleteIn(k, if accepted then 0 else EIO);
      case CompleteFailed(k) => CompleteFailed(k);
    }

    /** ... and so any run of it, in the order given. */
    method Run(steps: seq<M.Step>) returns (packets: seq<Packet>)
      requires Valid() && M.CanRun(Cfg(), m, steps)
      modifies this`m, this`outs, this`ins, this`bufs, this`failed, inEp, outEp, outReq, inReq, arrays
      ensures Valid() && m == M.Exec(Cfg(), old(m), steps)
      ensures m.read == old(m.read) + packets && m.sent == old(m.sent) + Written(steps)
    {
      hide Heap, OwnedOnce, M.Next, M.Enabled;
      ghost var was := m;
      var rest := steps;
      packets := [];
      Working(m);
      while rest != []
        invariant m.read == was.read + packets && m.sent + Written(rest) == was.sent + Written(steps)
        invariant Valid() && mps > 0 && M.CanRun(Cfg(), was, steps) && M.CanRun(Cfg(), m, rest)
        invariant M.Exec(Cfg(), m, rest) == M.Exec(Cfg(), was, steps)
        decreases |rest|
      {
        ghost var now := m;
        SentStep(Cfg(), now, rest[0]);
        var more := Perform(rest[0]);
        Reassociate(was.read, packets, more);
        Reassociate(now.sent, Written([rest[0]]), Written(rest[1..]));
        WrittenHead(rest);
        packets := packets + more;
        rest := rest[1..];
      }
    }

    /** So from a successful enable on, whatever happens: the pairs allocated are those
        not freed; over an aligned buffer, unless a request was aborted, the packets the
        host reads are the first of those it wrote; and when nothing is left to happen
        nothing is left allocated. */
    method Session(steps: seq<M.Step>) returns (packets: seq<Packet>)
      requires Valid() && m == M.Start(Cfg()) && qlen > 0 && M.CanRun(Cfg(), m, steps)
      modifies this`m, this`outs, this`ins, this`bufs, this`failed, inEp, outEp, outReq, inReq, arrays
      ensures Valid() && m == M.Exec(Cfg(), M.Start(Cfg()), steps)
      ensures outs == ins == bufs && forall p: nat :: p in outs <==> p < qlen && p !in m.freed
      ensures m.read == packets && m.sent == Written(steps)
      ensures buflen > 0 && buflen % mps == 0 ==> T.Transparent(Cfg(), m) && (!m.aborted ==> packets <= Written(steps))
      ensures M.Finished(Cfg(), m) ==> outs == {}
    {
      hide Heap, OwnedOnce;
      AsManyPairs(qlen);
      Working(m);
      packets := Run(steps);
      Allocated();
      if buflen > 0 && buflen % mps == 0 {
        T.Transparency(Cfg(), steps);
      }
      if M.Finished(Cfg(), m) {
        M.FinishedExactly(Cfg(), m);
        NothingLeft();
      }
    }

    lemma AsManyPairs(n: nat)
      requires Valid() && m == M.Primed(n)
      ensures |outReq| == n
    {
      OwnedPrimed(n);
      var p := Min(n, |outReq|);
      assert M.Places(m, p) == (if p < n then 1 else 0) == (if p < |outReq| then 1 else 0);
    }

    lemma Allocated()
      requires Valid()
      ensures outs == ins == bufs && forall p: nat :: p in outs <==> p < |outReq| && p !in m.freed
    {
    }
  }

  /** The packets that the host writes. */
  function Written(steps: seq<M.Step>): seq<Packet> {
    if steps == [] then []
    else (if steps[0].HostOut? then [steps[0].packet] else []) + Written(steps[1..])
  }

  lemma WrittenHead(steps: seq<M.Step>)
    requires steps != []
    ensures Written(steps) == Written([steps[0]]) + Written(steps[1..])
  {
    assert [steps[0]][1..] == [];
  }

  lemma SentStep(cfg: M.Config, s: M.State, step: M.Step)
    requires cfg.mps > 0 && M.Enabled(cfg, s, step)
    ensures M.Next(cfg, s, step).sent == s.sent + Written([step])
  {
    assert [step][1..] == [];
  }

  lemma ReadStep(cfg: M.Config, s: M.State, step: M.Step)
    requires cfg.mps > 0 && M.Enabled(cfg, s, step)
    ensures M.Next(cfg, s, step).read ==
            s.read + if step.HostIn? then [M.Packets(cfg, s.inQ[0])[s.emitted]] else []
  {
  }

  /** s after the first request queued on out_ep was shut down. */
  ghost function ShutOut(s: M.State): M.State
    requires s.outQ != []
  {
    s.(outQ := s.outQ[1..], filling := [], freed := s.freed + [s.outQ[0]], aborted := s.aborted || s.outEnabled)
  }

  ghost function ShutIn(s: M.State): M.State
    requires s.inQ != []
  {
    s.(inQ := s.inQ[1..], emitted := 0, freed := s.freed + [s.inQ[0].pair], aborted := s.aborted || s.inEnabled)
  }

  /** s after the pairs in gone, ahead of those in rest, were shut down. */
  ghost function FlushedOut(s: M.State, gone: seq<nat>, rest: seq<nat>): M.State {
    s.(outQ := rest, freed := s.freed + gone, filling := if gone == [] then s.filling else [])
  }

  ghost function FlushedIn(s: M.State, gone: seq<M.Transfer>, rest: seq<M.Transfer>): M.State {
    s.(inQ := rest, freed := s.freed + M.Pairs(gone), emitted := if gone == [] then s.emitted else 0)
  }

  lemma FlushedInStart(s: M.State)
    ensures FlushedIn(s, [], s.inQ) == s
  {
    assert s.freed + M.Pairs([]) == s.freed;
  }

  lemma FlushedOutNext(s: M.State, gone: seq<nat>, q: seq<nat>)
    requires q != [] && !s.outEnabled
    ensures ShutOut(FlushedOut(s, gone, q)) == FlushedOut(s, gone + [q[0]], q[1..])
    ensures (gone + [q[0]]) + q[1..] == gone + q
  {
    assert s.freed + (gone + [q[0]]) == (s.freed + gone) + [q[0]];
  }

  lemma FlushedInNext(s: M.State, gone: seq<M.Transfer>, q: seq<M.Transfer>)
    requires q != [] && !s.inEnabled
    ensures ShutIn(FlushedIn(s, gone, q)) == FlushedIn(s, gone + [q[0]], q[1..])
    ensures (gone + [q[0]]) + q[1..] == gone + q
  {
    assert M.Pairs(gone + [q[0]]) == M.Pairs(gone) + [q[0].pair];
    assert s.freed + (M.Pairs(gone) + [q[0].pair]) == (s.freed + M.Pairs(gone)) + [q[0].pair];
  }
}
