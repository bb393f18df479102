/** WRITE_BUFFER_TO_READ_REQUEST_QUEUE and the request handlers that use it,
    proved to carry out the atomic steps of module Rendezvous. */
module Misc {
  import opened Wdf
  import opened WriteList
  import opened Rendezvous

  datatype Outcome = Outcome(status: NtStatus, information: nat)

  /** A read request (file read or bulk IN URB) with its output buffer. */
  class ReadRequest {
    const id: nat
    const buffer: array<byte>
    var completion: Option<Outcome>

    constructor (id: nat, buffer: array<byte>)
      ensures this.id == id && this.buffer == buffer && completion == None
    {
      this.id, this.buffer, completion := id, buffer, None;
    }

    /** A request is completed at most once. */
    method Complete(status: NtStatus, information: nat)
      requires completion == None
      modifies this
      ensures completion == Some(Outcome(status, information))
    {
      completion := Some(Outcome(status, information));
    }

    function AsRead(): Read {
      Read(id, buffer.Length)
    }
  }

  function AsReads(rs: seq<ReadRequest>): (r: seq<Read>)
    ensures |r| == |rs|
    ensures forall i | 0 <= i < |r| :: r[i] == rs[i].AsRead()
  {
    seq(|rs|, i requires 0 <= i < |rs| => rs[i].AsRead())
  }

  /** memcpy to the start of a buffer */
  method MemCopy(dst: array<byte>, src: Bytes, n: nat)
    requires n <= |src| && n <= dst.Length
    modifies dst
    ensures dst[..] == src[..n] + old(dst[..])[n..]
  {
    forall i | 0 <= i < n {
      dst[i] := src[i];
    }
  }

  class WriteReadQueue {
    const writes: WriteBufferList
    const parked: ManualQueue<ReadRequest>
    var hasLock: bool     // qsync is not NULL
    var hasQueue: bool    // ReadBufferQueue is not NULL

    ghost predicate Valid()
      reads this, writes, writes.head, writes.entries, parked
    {
      writes.Valid() && parked.Valid()
    }

    /** The abstract rendezvous that this object stands for. */
    ghost function Abs(): Queue
      reads this, writes, parked
    {
      Queue(writes.Contents(), AsReads(parked.items))
    }

    /** The structure as WRQueueInit clears it. */
    constructor ()
      ensures Valid() && Abs() == EMPTY && parked.accepting && !hasLock && !hasQueue
      ensures fresh(writes) && fresh(writes.head) && fresh(parked)
    {
      writes := new WriteBufferList();
      parked := new ManualQueue();
      hasLock, hasQueue := false, false;
    }

    /** WRQueueInit; lock and queue are the outcomes of the two creations.  Its error
        exit deletes a NULL queue exactly when the lock exists and the queue does not. */
    method Init(lock: NtStatus, queue: NtStatus) returns (status: NtStatus, deletesNull: bool)
      requires Valid() && Abs() == EMPTY && !hasLock && !hasQueue
      modifies this, writes, writes.head, writes.entries, parked
      ensures Valid() && Abs() == EMPTY
      ensures status == if NtSuccess(lock) then queue else lock
      ensures hasLock == hasQueue == (NtSuccess(lock) && NtSuccess(queue))
      ensures hasLock ==> parked.accepting == old(parked.accepting)
      ensures deletesNull <==> NtSuccess(lock) && !NtSuccess(queue)
    {
      ghost var freed;
      var cancelled;
      status, deletesNull := lock, false;
      if NtSuccess(lock) {
        hasLock := true;
        status := queue;
        if NtSuccess(queue) {
          hasQueue := true;
          return;
        }
      }
      freed, cancelled, deletesNull := Destroy();
    }

    /** WRQueueDestroy, for a queue in any stage of its life. */
    method Destroy() returns (ghost freed: seq<ListEntry>, cancelled: seq<ReadRequest>, deletesNull: bool)
      requires Valid()
      modifies this, writes, writes.head, writes.entries, parked
      ensures Valid() && !hasLock && (old(hasLock) ==> !hasQueue)
      ensures !old(hasLock) ==>
                && freed == [] && cancelled == [] && !deletesNull && hasQueue == old(hasQueue)
                && Abs() == old(Abs()) && parked.accepting == old(parked.accepting)
      ensures old(hasLock) ==>
                && freed == old(writes.entries) && writes.Contents() == [] && writes.pool == {}
                && deletesNull == !old(hasQueue)
      ensures old(hasLock) && old(hasQueue) ==>
                Abs() == EMPTY && !parked.accepting && cancelled == old(parked.items)
      ensures old(hasLock) && !old(hasQueue) ==> parked.items == old(parked.items)
    {
      freed, cancelled, deletesNull := [], [], false;
      if !hasLock {
        return;
      }
      freed := writes.Destroy();
      if hasQueue {
        cancelled := parked.Purge();
      } else {
        deletesNull := true;
      }
      hasQueue, hasLock := false, false;
    }

    /** WRQueuePushWrite; allocOk says whether the pool allocation succeeds, and
        haveResult whether the caller passed a place for the matching read. */
    method PushWrite(wbuffer: Bytes, allocOk: bool, haveResult: bool)
      returns (status: NtStatus, rqReadToComplete: Option<ReadRequest>)
      requires Valid()
      modifies writes, writes.head, writes.entries, parked`items
      ensures Valid()
      ensures !haveResult ==>
                && status == STATUS_INVALID_PARAMETER && rqReadToComplete == None
                && Abs() == old(Abs()) && parked.items == old(parked.items)
      ensures haveResult && old(parked.items) != [] ==>
                && status == STATUS_SUCCESS
                && rqReadToComplete == Some(old(parked.items)[0])
                && parked.items == old(parked.items)[1..]
                && writes.Contents() == old(writes.Contents())
      ensures haveResult && old(parked.items) == [] ==>
                && status == (if allocOk then STATUS_SUCCESS else STATUS_INSUFFICIENT_RESOURCES)
                && rqReadToComplete == None
                && parked.items == []
                && writes.Contents() == old(writes.Contents()) + if allocOk then [wbuffer] else []
    {
      rqReadToComplete := None;
      if !haveResult {
        return STATUS_INVALID_PARAMETER, None;
      }
      var firstPendingRead;
      status, firstPendingRead := parked.Retrieve();
      if NtSuccess(status) {
        rqReadToComplete := firstPendingRead;
      } else {
        status := STATUS_SUCCESS;
        if !allocOk {
          return STATUS_INSUFFICIENT_RESOURCES, None;
        }
        var entry := writes.InsertTail(wbuffer);
      }
    }

    /** WRQueuePullRead; haveResults says whether the caller passed both places
        for the results. */
    method PullRead(rqRead: ReadRequest, rbuffer: array?<byte>, rlen: nat, haveResults: bool)
      returns (status: NtStatus, readyToComplete: bool, completedBytes: nat)
      requires Valid()
      requires rbuffer != null ==> rlen <= rbuffer.Length
      modifies writes, writes.head, writes.entries, parked`items, rbuffer
      ensures Valid()
      ensures !haveResults || rbuffer == null ==>
                && status == STATUS_INVALID_PARAMETER && !readyToComplete
                && Abs() == old(Abs()) && parked.items == old(parked.items)
                && (rbuffer != null ==> rbuffer[..] == old(rbuffer[..]))
      ensures haveResults && rbuffer != null && old(writes.Contents()) != [] ==>
                var data := Truncate(old(writes.Contents())[0], rlen);
                && status == STATUS_SUCCESS && readyToComplete && completedBytes == |data|
                && rbuffer[..] == data + old(rbuffer[..])[|data|..]
                && parked.items == old(parked.items)
                && writes.Contents() == old(writes.Contents())[1..]
      ensures haveResults && rbuffer != null && old(writes.Contents()) == [] ==>
                && status == (if parked.accepting then STATUS_SUCCESS else STATUS_WDF_BUSY)
                && !readyToComplete && completedBytes == 0
                && rbuffer[..] == old(rbuffer[..])
                && parked.items == old(parked.items) + (if parked.accepting then [rqRead] else [])
                && writes.Contents() == []
    {
      readyToComplete, completedBytes := false, 0;
      if !haveResults || rbuffer == null {
        return STATUS_INVALID_PARAMETER, false, 0;
      }
      ghost var was := writes.entries;
      var firstPendingWrite := writes.RemoveHead();
      if firstPendingWrite == writes.head {
        status := parked.Forward(rqRead);
      } else {
        BuffersTail(was);
        var minlen := Min(|firstPendingWrite.buffer|, rlen);
        MemCopy(rbuffer, firstPendingWrite.buffer, minlen);
        readyToComplete, completedBytes := true, minlen;
        writes.Free(firstPendingWrite);
        status := STATUS_SUCCESS;
      }
    }
  }
}
