/** The write/read rendezvous of UDEFX2/Misc.c with every operation one atomic
    step, and the FIFO matcher that it implements. */
module Rendezvous {
  import opened Wdf

  datatype Read = Read(id: nat, length: nat)
  datatype Delivery = Delivery(read: Read, data: Bytes)

  /** Parked writes and parked reads, oldest first. */
  datatype Queue = Queue(writes: seq<Bytes>, waiting: seq<Read>)

  const EMPTY := Queue([], [])

  function Truncate(data: Bytes, n: nat): Bytes {
    data[..Min(|data|, n)]
  }

  function Deliver(data: Bytes, read: Read): Delivery {
    Delivery(read, Truncate(data, read.length))
  }

  /** WRQueuePushWrite and its callers' hand-off to a matching read. */
  function PushWrite(q: Queue, data: Bytes): (Queue, seq<Delivery>) {
    if q.waiting != [] then
      (q.(waiting := q.waiting[1..]), [Deliver(data, q.waiting[0])])
    else
      (q.(writes := q.writes + [data]), [])
  }

  /** WRQueuePullRead and its callers' completion of a ready read. */
  function PullRead(q: Queue, read: Read): (Queue, seq<Delivery>) {
    if q.writes != [] then
      (q.(writes := q.writes[1..]), [Deliver(q.writes[0], read)])
    else
      (q.(waiting := q.waiting + [read]), [])
  }

  /** Cancelling a read succeeds only while it is parked. */
  function Remove(rs: seq<Read>, id: nat): seq<Read> {
    if rs == [] then []
    else if rs[0].id == id then rs[1..]
    else [rs[0]] + Remove(rs[1..], id)
  }

  function CancelRead(q: Queue, id: nat): Queue {
    q.(waiting := Remove(q.waiting, id))
  }

  // ----- Runs

  datatype Op = Push(data: Bytes) | Pull(read: Read) | Cancel(id: nat)

  datatype System = System(queue: Queue, log: seq<Delivery>)

  function Step(s: System, op: Op): System {
    match op
    case Push(data) => var (q, out) := PushWrite(s.queue, data); System(q, s.log + out)
    case Pull(read) => var (q, out) := PullRead(s.queue, read); System(q, s.log + out)
    case Cancel(id) => System(CancelRead(s.queue, id), s.log)
  }

  function Run(ops: seq<Op>): System {
    if ops == [] then System(EMPTY, [])
    else Step(Run(ops[..|ops| - 1]), ops[|ops| - 1])
  }

  // ----- The FIFO matcher: two unbounded logs, the i-th read served by the i-th write

  datatype Logs = Logs(written: seq<Bytes>, arrived: seq<Read>) {
    function Served(): nat {
      Min(|written|, |arrived|)
    }
  }

  function Record(l: Logs, op: Op): Logs {
    match op
    case Push(data) => l.(written := l.written + [data])
    case Pull(read) => l.(arrived := l.arrived + [read])
    case Cancel(id) =>
      var n := l.Served();
      l.(arrived := l.arrived[..n] + Remove(l.arrived[n..], id))
  }

  function Match(ops: seq<Op>): Logs {
    if ops == [] then Logs([], [])
    else Record(Match(ops[..|ops| - 1]), ops[|ops| - 1])
  }

  ghost predicate Refines(s: System, l: Logs) {
    var n := l.Served();
    && |s.log| == n
    && (forall i | 0 <= i < n :: s.log[i] == Deliver(l.written[i], l.arrived[i]))
    && s.queue == Queue(l.written[n..], l.arrived[n..])
  }

  lemma StepRefines(s: System, l: Logs, op: Op)
    requires Refines(s, l)
    ensures Refines(Step(s, op), Record(l, op))
  {
    var n, l' := l.Served(), Record(l, op);
    match op
    case Push(data) =>
      if n < |l.arrived| {
        assert n == |l.written| && l.arrived[n..][0] == l.arrived[n];
        assert l'.written[..n] == l.written && l.arrived[n..][1..] == l.arrived[n + 1..];
      } else {
        assert l'.written[n..] == l.written[n..] + [data];
      }
    case Pull(read) =>
      if n < |l.written| {
        assert n == |l.arrived| && l.written[n..][0] == l.written[n];
        assert l'.arrived[..n] == l.arrived && l.written[n..][1..] == l.written[n + 1..];
      } else {
        assert l'.arrived[n..] == l.arrived[n..] + [read];
      }
    case Cancel(id) =>
      RemoveShrinks(l.arrived[n..], id);
      assert l'.Served() == n;
      assert l'.arrived[n..] == Remove(l.arrived[n..], id);
  }

  lemma RemoveShrinks(rs: seq<Read>, id: nat)
    ensures |Remove(rs, id)| <= |rs|
    ensures forall r | r in Remove(rs, id) :: r in rs
  {
  }

  lemma {:induction false} RemoveNothing(rs: seq<Read>, id: nat)
    requires forall i | 0 <= i < |rs| :: rs[i].id != id
    ensures Remove(rs, id) == rs
  {
    if rs != [] {
      RemoveNothing(rs[1..], id);
      assert rs == [rs[0]] + rs[1..];
    }
  }

  /** Over every run the i-th surviving read receives the i-th write, cut to the
      shorter of the two lengths, whichever of them arrived first; what is still
      parked is the rest of the two logs, and one of the two sides is empty. */
  lemma {:induction false} FifoMatching(ops: seq<Op>)
    ensures Refines(Run(ops), Match(ops))
    ensures Run(ops).queue.writes == [] || Run(ops).queue.waiting == []
  {
    if ops != [] {
      FifoMatching(ops[..|ops| - 1]);
      StepRefines(Run(ops[..|ops| - 1]), Match(ops[..|ops| - 1]), ops[|ops| - 1]);
    }
  }

  function Pushes(ops: seq<Op>): seq<Bytes> {
    if ops == [] then []
    else Pushes(ops[..|ops| - 1]) + (var op := ops[|ops| - 1]; if op.Push? then [op.data] else [])
  }

  function Pulls(ops: seq<Op>): seq<Read> {
    if ops == [] then []
    else Pulls(ops[..|ops| - 1]) + (var op := ops[|ops| - 1]; if op.Pull? then [op.read] else [])
  }

  predicate NoCancel(ops: seq<Op>) {
    forall i | 0 <= i < |ops| :: !ops[i].Cancel?
  }

  /** The matcher's write log is the pushes in order ... */
  lemma {:induction false} WritesInOrder(ops: seq<Op>)
    ensures Match(ops).written == Pushes(ops)
  {
    if ops != [] {
      WritesInOrder(ops[..|ops| - 1]);
    }
  }

  /** ... and without cancellation its read log is the pulls in order. */
  lemma {:induction false} ReadsInOrder(ops: seq<Op>)
    requires NoCancel(ops)
    ensures Match(ops).arrived == Pulls(ops)
  {
    if ops != [] {
      ReadsInOrder(ops[..|ops| - 1]);
    }
  }

  /** Without cancellation the i-th read to be served is the i-th read made, and it
      gets the i-th write made, cut to the shorter of the two lengths. */
  lemma ServedInOrder(ops: seq<Op>, i: nat)
    requires NoCancel(ops) && i < |Run(ops).log|
    ensures i < |Pushes(ops)| && i < |Pulls(ops)|
    ensures Run(ops).log[i] ==
            Delivery(Pulls(ops)[i], Pushes(ops)[i][..Min(|Pushes(ops)[i]|, Pulls(ops)[i].length)])
  {
    FifoMatching(ops);
    WritesInOrder(ops);
    ReadsInOrder(ops);
  }

  /** A cancellation takes the read out of its place and changes nothing else. */
  lemma CancelOnlyRemoves(s: System, id: nat, k: nat)
    requires k < |s.queue.waiting| && s.queue.waiting[k].id == id
    requires forall i | 0 <= i < k :: s.queue.waiting[i].id != id
    ensures Step(s, Cancel(id)) == s.(queue := s.queue.(waiting := s.queue.waiting[..k] + s.queue.waiting[k + 1..]))
  {
    RemoveAt(s.queue.waiting, id, k);
  }

  predicate Absent(rs: seq<Read>, id: nat) {
    forall i | 0 <= i < |rs| :: rs[i].id != id
  }

  predicate NoPullOf(ops: seq<Op>, id: nat) {
    forall i | 0 <= i < |ops| :: ops[i].Pull? ==> ops[i].read.id != id
  }

  lemma AbsentRemove(rs: seq<Read>, removed: nat, id: nat)
    requires Absent(rs, id)
    ensures Absent(Remove(rs, removed), id)
  {
    RemoveShrinks(rs, removed);
    forall i | 0 <= i < |Remove(rs, removed)|
      ensures Remove(rs, removed)[i].id != id
    {
      assert Remove(rs, removed)[i] in rs;
    }
  }

  lemma {:induction false} NeverServed(ops: seq<Op>, more: seq<Op>, id: nat)
    requires Absent(Run(ops).queue.waiting, id) && NoPullOf(more, id)
    ensures var log, log' := Run(ops).log, Run(ops + more).log;
            log <= log' && forall i | |log| <= i < |log'| :: log'[i].read.id != id
    ensures Absent(Run(ops + more).queue.waiting, id)
  {
    if more == [] {
      assert ops + more == ops;
    } else {
      var front, last := more[..|more| - 1], more[|more| - 1];
      NeverServed(ops, front, id);
      assert (ops + more)[..|ops + more| - 1] == ops + front;
      if last.Cancel? {
        AbsentRemove(Run(ops + front).queue.waiting, last.id, id);
      }
    }
  }

  /** A read that is cancelled while parked is never served afterwards, whatever
      else happens, unless a read with its id is made again. */
  lemma CancelledNeverServed(ops: seq<Op>, id: nat, more: seq<Op>)
    requires Absent(Remove(Run(ops).queue.waiting, id), id) && NoPullOf(more, id)
    ensures var log, log' := Run(ops).log, Run(ops + [Cancel(id)] + more).log;
            log <= log' && forall i | |log| <= i < |log'| :: log'[i].read.id != id
  {
    assert (ops + [Cancel(id)])[..|ops|] == ops;
    NeverServed(ops + [Cancel(id)], more, id);
  }

  lemma {:induction false} RemoveAt(rs: seq<Read>, id: nat, k: nat)
    requires k < |rs| && rs[k].id == id
    requires forall i | 0 <= i < k :: rs[i].id != id
    ensures Remove(rs, id) == rs[..k] + rs[k + 1..]
  {
    if k > 0 {
      RemoveAt(rs[1..], id, k - 1);
      assert rs[..k] == [rs[0]] + rs[1..][..k - 1];
    }
  }
}
