/** The slice of the Windows Driver Framework that the drivers rely on: status
    codes, fixed-width integers and manual I/O queues. */
module Wdf {

  newtype byte = x: int | 0 <= x < 0x100
  newtype uint32 = x: int | 0 <= x < 0x1_0000_0000

  type Bytes = seq<byte>

  datatype Option<+T> = None | Some(value: T)

  datatype NtStatus =
    | STATUS_SUCCESS
    | OtherSuccess(code: nat)
    | STATUS_CANCELLED
    | STATUS_INVALID_PARAMETER
    | STATUS_INSUFFICIENT_RESOURCES
    | STATUS_INVALID_BLOCK_LENGTH
    | STATUS_BUFFER_TOO_SMALL
    | STATUS_ACCESS_DENIED
    | STATUS_NO_MORE_ENTRIES
    | STATUS_WDF_BUSY
    | OtherError(code: nat)

  predicate NtSuccess(s: NtStatus) {
    s.STATUS_SUCCESS? || s.OtherSuccess?
  }

  function Min(a: nat, b: nat): nat {
    if a < b then a else b
  }

  /** A manual-dispatch queue: a FIFO of parked requests that is emptied and
      closed by a purge and reopened by a start. */
  class ManualQueue<T> {
    var items: seq<T>
    var accepting: bool

    ghost predicate Valid()
      reads this
    {
      !accepting ==> items == []
    }

    constructor ()
      ensures Valid() && items == [] && accepting
    {
      items, accepting := [], true;
    }

    /** WdfIoQueueRetrieveNextRequest */
    method Retrieve() returns (status: NtStatus, request: Option<T>)
      requires Valid()
      modifies this`items
      ensures Valid()
      ensures old(items) == [] ==> !NtSuccess(status) && request == None && items == []
      ensures old(items) != [] ==>
                status == STATUS_SUCCESS && request == Some(old(items)[0]) && items == old(items)[1..]
    {
      if items == [] {
        status, request := STATUS_NO_MORE_ENTRIES, None;
      } else {
        status, request := STATUS_SUCCESS, Some(items[0]);
        items := items[1..];
      }
    }

    /** WdfRequestForwardToIoQueue */
    method Forward(request: T) returns (status: NtStatus)
      requires Valid()
      modifies this`items
      ensures Valid()
      ensures status == if accepting then STATUS_SUCCESS else STATUS_WDF_BUSY
      ensures items == if accepting then old(items) + [request] else old(items)
    {
      if accepting {
        items := items + [request];
        status := STATUS_SUCCESS;
      } else {
        status := STATUS_WDF_BUSY;
      }
    }

    /** WdfIoQueuePurge: the queue closes and gives up everything parked on it. */
    method Purge() returns (cancelled: seq<T>)
      requires Valid()
      modifies this
      ensures Valid() && items == [] && !accepting
      ensures cancelled == old(items)
    {
      cancelled := items;
      items, accepting := [], false;
    }

    /** WdfIoQueueStart */
    method Start()
      requires Valid()
      modifies this`accepting
      ensures Valid() && accepting
    {
      accepting := true;
    }
  }
}
