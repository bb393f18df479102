/** The configfs options of the loopback function: they cannot change under a
    function that was made from them. */
module LoopbackOptions {
  import opened LoopbackDriver
  import opened Wdf

  const EBUSY := -16
  const DEFAULT_QLEN: uint32 := 32
  const DEFAULT_BUFLEN: uint32 := 4096

  class Options {
    var bulkBuflen: uint32
    var qlen: uint32
    var refcnt: int
    ghost var functions: seq<Loopback>   // allocated and not freed

    ghost predicate Valid()
      reads this
    {
      && refcnt == |functions|
      && forall k | 0 <= k < |functions| ::
           && functions[k].buflen == bulkBuflen as int
           && functions[k].qlen == if qlen == 0 then 32 else qlen as int
    }

    constructor ()
      ensures Valid() && functions == [] && qlen == 32 && bulkBuflen == 4096
    {
      bulkBuflen, qlen, refcnt, functions := DEFAULT_BUFLEN, DEFAULT_QLEN, 0, [];
    }

    /** loopback_alloc: a function always has at least one pair to set up. */
    method Alloc(allocOk: bool, mps: nat) returns (loop: Option<Loopback>)
      requires Valid() && mps > 0
      modifies this`refcnt, this`functions
      ensures Valid()
      ensures loop.Some? == allocOk
      ensures functions == old(functions) + if allocOk then [loop.value] else []
      ensures allocOk ==> loop.value.Valid() && loop.value.buflen == bulkBuflen as int
      ensures allocOk ==> loop.value.qlen == if qlen == 0 then 32 else qlen as int
    {
      if !allocOk {
        return None;
      }
      refcnt := refcnt + 1;
      var f := new Loopback(if qlen == 0 then 32 else qlen as int, bulkBuflen as int, mps);
      functions := functions + [f];
      return Some(f);
    }

    /** lb_free_func */
    method Free(ghost k: nat)
      requires Valid() && k < |functions|
      modifies this`refcnt, this`functions
      ensures Valid()
      ensures functions == old(functions)[..k] + old(functions)[k + 1..]
    {
      refcnt := refcnt - 1;
      functions := functions[..k] + functions[k + 1..];
    }

    /** The store of qlen; num is what the text parses to, or the error. */
    method StoreQlen(num: Option<uint32>, error: int, len: int) returns (ret: int)
      requires Valid()
      modifies this`qlen
      ensures Valid()
      ensures functions != [] ==> ret == -16 && qlen == old(qlen)
      ensures functions == [] ==> if num.Some? then ret == len && qlen == num.value
                                  else ret == error && qlen == old(qlen)
    {
      if refcnt != 0 {
        return EBUSY;
      }
      if num.None? {
        return error;
      }
      qlen := num.value;
      return len;
    }

    /** The store of bulk_buflen. */
    method StoreBuflen(num: Option<uint32>, error: int, len: int) returns (ret: int)
      requires Valid()
      modifies this`bulkBuflen
      ensures Valid()
      ensures functions != [] ==> ret == -16 && bulkBuflen == old(bulkBuflen)
      ensures functions == [] ==> if num.Some? then ret == len && bulkBuflen == num.value
                                  else ret == error && bulkBuflen == old(bulkBuflen)
    {
      if refcnt != 0 {
        return EBUSY;
      }
      if num.None? {
        return error;
      }
      bulkBuflen := num.value;
      return len;
    }
  }
}
