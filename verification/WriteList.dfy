/** The intrusive circular list of parked writes in UDEFX2/Misc.c: LIST_ENTRY
    links embedded in BUFFER_CONTENT records, with the queue's own LIST_ENTRY as
    the sentinel. */
module WriteList {
  import opened Wdf

  /** One BUFFER_CONTENT record; the sentinel carries no bytes. */
  class ListEntry {
    var flink: ListEntry?
    var blink: ListEntry?
    const buffer: Bytes

    constructor (buffer: Bytes)
      ensures this.buffer == buffer
    {
      this.buffer := buffer;
      flink, blink := null, null;
    }
  }

  function Buffers(es: seq<ListEntry>): (r: seq<Bytes>)
    ensures |r| == |es|
    ensures forall i | 0 <= i < |r| :: r[i] == es[i].buffer
  {
    seq(|es|, i requires 0 <= i < |es| => es[i].buffer)
  }

  lemma BuffersTail(es: seq<ListEntry>)
    requires es != []
    ensures Buffers(es)[0] == es[0].buffer && Buffers(es)[1..] == Buffers(es[1..])
  {
  }

  ghost predicate Distinct(es: seq<ListEntry>) {
    forall i, j | 0 <= i < j < |es| :: es[i] != es[j]
  }

  lemma DistinctTail(es: seq<ListEntry>)
    requires Distinct(es) && es != []
    ensures Distinct(es[1..]) && es[0] !in es[1..] && es == [es[0]] + es[1..]
    ensures forall e | e in es[1..] :: e in es
  {
  }

  /** Following flink from the sentinel visits es in order and comes back to the
      sentinel, and blink undoes every such step. */
  ghost predicate Linked(head: ListEntry, es: seq<ListEntry>)
    reads head, es
  {
    && head !in es
    && Distinct(es)
    && (es == [] ==> head.flink == head && head.blink == head)
    && (es != [] ==>
          && head.flink == es[0] && es[0].blink == head
          && head.blink == es[|es| - 1] && es[|es| - 1].flink == head)
    && (forall i {:trigger es[i].flink} :: 0 <= i < |es| - 1 ==> es[i].flink == es[i + 1])
    && (forall i {:trigger es[i].blink} :: 1 <= i < |es| ==> es[i].blink == es[i - 1])
  }

  class WriteBufferList {
    const head: ListEntry
    ghost var entries: seq<ListEntry>    // from head.flink round to head.blink
    ghost var pool: set<ListEntry>       // records allocated and not yet freed

    /** The list is linked, and the allocated records are those on it and held. */
    ghost predicate ValidHolding(held: set<ListEntry>)
      reads this, head, entries
    {
      && Linked(head, entries) && head !in pool
      && (forall e | e in entries :: e in pool && e !in held)
      && held <= pool
      && (forall e | e in pool :: e in entries || e in held)
    }

    ghost predicate Valid()
      reads this, head, entries
    {
      ValidHolding({})
    }

    ghost function Contents(): seq<Bytes>
      reads this
    {
      Buffers(entries)
    }

    /** InitializeListHead */
    constructor ()
      ensures Valid() && entries == [] && fresh(head)
    {
      head := new ListEntry([]);
      entries, pool := [], {};
      new;
      head.flink, head.blink := head, head;
    }

    /** ExAllocatePool2, the copy, and InsertTailList. */
    method InsertTail(buffer: Bytes) returns (entry: ListEntry)
      requires Valid()
      modifies this, head, entries
      ensures Valid() && fresh(entry) && entry.buffer == buffer
      ensures entries == old(entries) + [entry]
      ensures Contents() == old(Contents()) + [buffer]
    {
      entry := new ListEntry(buffer);
      var last := head.blink;
      entry.flink := head;
      entry.blink := last;
      last.flink := entry;
      head.blink := entry;
      entries, pool := entries + [entry], pool + {entry};
    }

    /** RemoveHeadList: the sentinel itself comes back exactly when the list is
        empty.  A removed record stays allocated until it is freed. */
    method RemoveHead() returns (entry: ListEntry)
      requires Valid()
      modifies this`entries, head, if |entries| > 1 then {entries[1]} else {}
      ensures (entry == head) <==> old(entries) == []
      ensures entry == head ==> entries == [] && Valid()
      ensures entry != head ==>
                && entry == old(entries)[0] && entries == old(entries)[1..]
                && ValidHolding({entry})
    {
      entry := head.flink;
      var next := entry.flink;
      head.flink := next;
      next.blink := head;
      if entry != head {
        DistinctTail(entries);
        entries := entries[1..];
      }
    }

    /** ExFreePool: freeing the sentinel, or a record twice, is ruled out. */
    ghost method Free(entry: ListEntry)
      requires entry in pool && ValidHolding({entry})
      modifies this`pool
      ensures Valid() && pool == old(pool) - {entry} && entry != head
    {
      pool := pool - {entry};
    }

    /** The loop of WRQueueDestroy: every record is freed once, in list order. */
    method Destroy() returns (ghost freed: seq<ListEntry>)
      requires Valid()
      modifies this, head, entries
      ensures Valid() && entries == [] && pool == {}
      ensures freed == old(entries)
    {
      hide Linked, Buffers;
      ghost var all, k := entries, 0;
      freed := [];
      var e := RemoveHead();
      while e != head
        invariant if k < |all| then e == all[k] && e != head && ValidHolding({e}) && entries == all[k + 1..]
                  else e == head && Valid() && entries == [] && k == |all|
        invariant |freed| == k && forall i | 0 <= i < k :: freed[i] == all[i]
        modifies this, head, all
        decreases |all| - k
      {
        Free(e);
        freed, k := freed + [e], k + 1;
        assert |entries| > 1 ==> entries[1] == all[k + 1];
        e := RemoveHead();
      }
    }
  }
}
