/** The request handlers on either side of a mission queue: BackChannelEvtWrite
    and IoEvtBulkOutUrb push, BackChannelEvtRead and IoEvtBulkInUrb pull, and the
    cancel callbacks complete a parked read. */
module BackChannel {
  import opened Wdf
  import opened Rendezvous
  import opened Misc
  import opened WriteList

  /** A write request (file write or bulk OUT URB); buffer is None when the
      framework cannot hand over its bytes. */
  class WriteRequest {
    const buffer: Option<Bytes>
    var completion: Option<Outcome>

    constructor (buffer: Option<Bytes>)
      ensures this.buffer == buffer && completion == None
    {
      this.buffer, completion := buffer, None;
    }

    method Complete(status: NtStatus, information: nat)
      requires completion == None
      modifies this
      ensures completion == Some(Outcome(status, information))
    {
      completion := Some(Outcome(status, information));
    }
  }

  /** The read was completed with exactly the bytes of the delivery. */
  ghost predicate Received(r: ReadRequest, d: Delivery)
    reads r, r.buffer
  {
    && d.read == r.AsRead()
    && |d.data| <= r.buffer.Length
    && r.completion == Some(Outcome(STATUS_SUCCESS, |d.data|))
    && r.buffer[..|d.data|] == d.data
  }

  /** No two requests share an id. */
  ghost predicate Unique(rs: seq<ReadRequest>) {
    rs != [] ==> (forall r | r in rs[1..] :: r.id != rs[0].id) && Unique(rs[1..])
  }

  lemma {:induction false} UniqueAppend(rs: seq<ReadRequest>, x: ReadRequest)
    requires Unique(rs) && forall r | r in rs :: r.id != x.id
    ensures Unique(rs + [x])
  {
    if rs != [] {
      UniqueAppend(rs[1..], x);
      assert (rs + [x])[1..] == rs[1..] + [x];
    }
  }

  lemma {:induction false} UniqueRemove(rs: seq<ReadRequest>, k: nat)
    requires Unique(rs) && k < |rs|
    ensures Unique(rs[..k] + rs[k + 1..])
    ensures forall i | 0 <= i < |rs| && i != k :: rs[i].id != rs[k].id
  {
    if k == 0 {
      assert rs[..0] + rs[1..] == rs[1..];
    } else {
      UniqueRemove(rs[1..], k - 1);
      assert (rs[..k] + rs[k + 1..])[1..] == rs[1..][..k - 1] + rs[1..][k..];
      assert forall i | 1 <= i < |rs| :: rs[i] == rs[1..][i - 1];
    }
  }

  /** One mission queue with its handlers; log lists the deliveries made. */
  class MissionPort {
    const queue: WriteReadQueue
    ghost var log: seq<Delivery>

    ghost predicate Valid()
      reads this, queue, queue.writes, queue.writes.head, queue.writes.entries, queue.parked, queue.parked.items
    {
      && queue.Valid()
      && (forall r | r in queue.parked.items :: r.completion == None)
      && Unique(queue.parked.items)
    }

    ghost function Abs(): System
      reads this, queue, queue.writes, queue.parked
    {
      System(queue.Abs(), log)
    }

    constructor ()
      ensures Valid() && Abs() == System(EMPTY, []) && queue.parked.accepting && queue.hasQueue
    {
      queue := new WriteReadQueue();
      log := [];
      new;
      var status, deletesNull := queue.Init(STATUS_SUCCESS, STATUS_SUCCESS);
    }

    /** BackChannelEvtWrite, and IoEvtBulkOutUrb for a submit-URB control code:
        the write itself is always completed, and never parked.  failure is the error
        of retrieving the waiting read's buffer, if that fails: then the read goes, as
        if cancelled, and so do the bytes. */
    method HandleWrite(request: WriteRequest, allocOk: bool, failure: Option<NtStatus>)
      requires Valid() && request.completion == None
      requires failure.Some? ==> !NtSuccess(failure.value)
      modifies this, request, queue.writes, queue.writes.head, queue.writes.entries, queue.parked`items
      modifies if queue.parked.items == [] then {} else
                 {queue.parked.items[0] as object, queue.parked.items[0].buffer}
      ensures Valid()
      ensures request.buffer == None ==>
                request.completion.Some? && !NtSuccess(request.completion.value.status) && Abs() == old(Abs())
      ensures request.buffer.Some? && !allocOk && old(queue.parked.items) == [] ==>
                && request.completion == Some(Outcome(STATUS_INSUFFICIENT_RESOURCES, |request.buffer.value|))
                && Abs() == old(Abs())
      ensures request.buffer.Some? && old(queue.parked.items) == [] && allocOk ==>
                && request.completion == Some(Outcome(STATUS_SUCCESS, |request.buffer.value|))
                && Abs() == Step(old(Abs()), Push(request.buffer.value))
      ensures request.buffer.Some? && old(queue.parked.items) != [] && failure.Some? ==>
                && request.completion == Some(Outcome(failure.value, |request.buffer.value|))
                && Abs() == Step(old(Abs()), Cancel(old(queue.parked.items)[0].id))
                && old(queue.parked.items)[0].completion == Some(Outcome(failure.value, 0))
      ensures request.buffer.Some? && old(queue.parked.items) != [] && failure.None? ==>
                && request.completion == Some(Outcome(STATUS_SUCCESS, |request.buffer.value|))
                && Abs() == Step(old(Abs()), Push(request.buffer.value))
                && Received(old(queue.parked.items)[0],
                            Deliver(request.buffer.value, old(queue.parked.items)[0].AsRead()))
                && queue.parked.items == old(queue.parked.items)[1..]
    {
      hide WriteBufferList.Valid, WriteBufferList.Contents, Step;
      if request.buffer == None {
        request.Complete(OtherError(0), 0);
        return;
      }
      var status := Forward(request.buffer.value, allocOk, failure);
      request.Complete(status, |request.buffer.value|);
    }

    /** Push the bytes and complete the matching read, if there is one. */
    method Forward(data: Bytes, allocOk: bool, failure: Option<NtStatus>) returns (status: NtStatus)
      requires Valid() && (failure.Some? ==> !NtSuccess(failure.value))
      modifies this, queue.writes, queue.writes.head, queue.writes.entries, queue.parked`items
      modifies if queue.parked.items == [] then {} else
                 {queue.parked.items[0] as object, queue.parked.items[0].buffer}
      ensures Valid()
      ensures old(queue.parked.items) == [] ==>
                && status == (if allocOk then STATUS_SUCCESS else STATUS_INSUFFICIENT_RESOURCES)
                && Abs() == if allocOk then Step(old(Abs()), Push(data)) else old(Abs())
      ensures old(queue.parked.items) != [] ==> queue.parked.items == old(queue.parked.items)[1..]
      ensures old(queue.parked.items) != [] && failure.None? ==>
                && status == STATUS_SUCCESS
                && Abs() == Step(old(Abs()), Push(data))
                && Received(old(queue.parked.items)[0], Deliver(data, old(queue.parked.items)[0].AsRead()))
      ensures old(queue.parked.items) != [] && failure.Some? ==>
                && status == failure.value
                && Abs() == Step(old(Abs()), Cancel(old(queue.parked.items)[0].id))
                && old(queue.parked.items)[0].completion == Some(Outcome(failure.value, 0))
    {
      hide WriteBufferList.Valid, WriteBufferList.Contents;
      ghost var waiting := queue.parked.items;
      var matchingRead;
      status, matchingRead := queue.PushWrite(data, allocOk, true);
      if matchingRead.Some? {
        var r := matchingRead.value;
        assert r == waiting[0] && r !in queue.parked.items;
        assert AsReads(waiting)[1..] == AsReads(queue.parked.items);
        if failure == None {
          log := log + [Deliver(data, r.AsRead())];
        }
        status := HandOff(r, data, failure);
        assert queue.Valid();
      }
    }

    /** The hand-off of a write to the read that was waiting for it. */
    static method HandOff(matchingRead: ReadRequest, data: Bytes, failure: Option<NtStatus>)
      returns (status: NtStatus)
      requires matchingRead.completion == None && (failure.Some? ==> !NtSuccess(failure.value))
      modifies matchingRead, matchingRead.buffer
      ensures failure == None ==>
                status == STATUS_SUCCESS && Received(matchingRead, Deliver(data, matchingRead.AsRead()))
      ensures failure == None ==>
                var n := Min(|data|, matchingRead.buffer.Length);
                && matchingRead.completion == Some(Outcome(STATUS_SUCCESS, n))
                && matchingRead.buffer[..] == data[..n] + old(matchingRead.buffer[..])[n..]
      ensures failure.Some? ==>
                && status == failure.value && matchingRead.completion == Some(Outcome(failure.value, 0))
                && matchingRead.buffer[..] == old(matchingRead.buffer[..])
    {
      var completeBytes := 0;
      status := if failure.Some? then failure.value else STATUS_SUCCESS;
      if NtSuccess(status) {
        completeBytes := Min(matchingRead.buffer.Length, |data|);
        MemCopy(matchingRead.buffer, data, completeBytes);
      }
      matchingRead.Complete(status, completeBytes);
    }

    /** BackChannelEvtRead, and IoEvtBulkInUrb; refused says that the request's buffer
        cannot be retrieved, or that its control code is not submit-URB. */
    method HandleRead(request: ReadRequest, refused: bool)
      requires Valid() && request.completion == None
      requires forall r | r in queue.parked.items :: r.id != request.id
      modifies this, request, request.buffer
      modifies queue.writes, queue.writes.head, queue.writes.entries, queue.parked`items
      ensures Valid()
      // a refused read is left neither parked nor completed
      ensures refused ==> Abs() == old(Abs()) && request.completion == None
      ensures !refused && old(queue.writes.Contents()) != [] ==>
                && Abs() == Step(old(Abs()), Pull(request.AsRead()))
                && Received(request, Deliver(old(queue.writes.Contents())[0], request.AsRead()))
                && var data := old(queue.writes.Contents())[0];
                   var n := Min(|data|, request.buffer.Length);
                   && request.completion == Some(Outcome(STATUS_SUCCESS, n))
                   && request.buffer[..] == data[..n] + old(request.buffer[..])[n..]
      ensures !refused && old(queue.writes.Contents()) == [] && queue.parked.accepting ==>
                && Abs() == Step(old(Abs()), Pull(request.AsRead()))
                && queue.parked.items == old(queue.parked.items) + [request] && request.completion == None
      // and so is one that cannot be parked
      ensures !refused && old(queue.writes.Contents()) == [] && !queue.parked.accepting ==>
                Abs() == old(Abs()) && request.completion == None
    {
      hide WriteBufferList.Valid, WriteBufferList.Contents;
      if refused {
        return;
      }
      ghost var pending, waiting := queue.writes.Contents(), queue.parked.items;
      var status, bReady, completeBytes :=
        queue.PullRead(request, request.buffer, request.buffer.Length, true);
      if bReady {
        log := log + [Deliver(pending[0], request.AsRead())];
        request.Complete(status, completeBytes);
        assert queue.Valid();
      } else if queue.parked.accepting {
        UniqueAppend(waiting, request);
        assert AsReads(waiting + [request]) == AsReads(waiting) + [request.AsRead()];
      }
    }

    /** The framework takes a parked read off the queue and calls
        EvtIoCanceledOnQueue. */
    method HandleCancel(request: ReadRequest, k: nat)
      requires Valid() && k < |queue.parked.items| && queue.parked.items[k] == request
      modifies request, queue.parked`items
      ensures Valid()
      ensures Abs() == Step(old(Abs()), Cancel(request.id))
      ensures request.completion == Some(Outcome(STATUS_CANCELLED, 0))
    {
      UniqueRemove(queue.parked.items, k);
      RemoveAt(AsReads(queue.parked.items), request.id, k);
      queue.parked.items := queue.parked.items[..k] + queue.parked.items[k + 1..];
      request.Complete(STATUS_CANCELLED, 0);
    }
  }
}
