/** How USB packets and gadget requests correspond: section 5.8.3 of USB 2.0 and
    the zero flag of the gadget API. */
module LoopbackPackets {
  import opened Wdf

  type Packet = Bytes

  function Concat(ps: seq<Packet>): Bytes {
    if ps == [] then [] else ps[0] + Concat(ps[1..])
  }

  /** The packets with which an IN request carries its data: full ones, then a short
      one if bytes are left, or a zero-length one if none are but the request asks
      for it.  A request without data is one zero-length packet. */
  function Emit(data: Bytes, zero: bool, mps: nat): seq<Packet>
    requires mps > 0
    decreases |data|
  {
    if |data| < mps then [data]
    else if |data| == mps then (if zero then [data, []] else [data])
    else [data[..mps]] + Emit(data[mps..], zero, mps)
  }

  ghost predicate AllFull(ps: seq<Packet>, mps: nat) {
    forall i | 0 <= i < |ps| :: |ps[i]| == mps
  }

  /** The packets that end an OUT request of length buflen: full ones, and then
      either a short one or the one that fills the buffer. */
  ghost predicate EndsRequest(ps: seq<Packet>, mps: nat, buflen: nat) {
    && ps != [] && AllFull(ps[..|ps| - 1], mps)
    && (|ps| - 1) * mps < buflen
    && var last := |ps[|ps| - 1]|;
       (last < mps && (|ps| - 1) * mps + last <= buflen) || (last == mps && |ps| * mps == buflen)
  }

  lemma {:induction false} FullLength(ps: seq<Packet>, mps: nat)
    requires AllFull(ps, mps)
    ensures |Concat(ps)| == |ps| * mps
  {
    if ps != [] {
      FullLength(ps[1..], mps);
      assert |ps| * mps == mps + |ps[1..]| * mps;
    }
  }

  lemma {:induction false} ConcatLast(ps: seq<Packet>, p: Packet)
    ensures Concat(ps + [p]) == Concat(ps) + p
  {
    if ps == [] {
      assert ps + [p] == [p] && [p][1..] == [];
    } else {
      ConcatLast(ps[1..], p);
      assert (ps + [p])[1..] == ps[1..] + [p];
    }
  }

  lemma EmitMore(head: Packet, more: Bytes, zero: bool, mps: nat)
    requires mps > 0 && |head| == mps && more != []
    ensures Emit(head + more, zero, mps) == [head] + Emit(more, zero, mps)
  {
    var data := head + more;
    assert |data| > mps;
    assert data[..mps] == head && data[mps..] == more;
  }

  /** Full packets ahead of more data come out unchanged. */
  lemma {:induction false} EmitFull(ps: seq<Packet>, rest: Bytes, zero: bool, mps: nat)
    requires mps > 0 && AllFull(ps, mps) && rest != []
    ensures Emit(Concat(ps) + rest, zero, mps) == ps + Emit(rest, zero, mps)
  {
    if ps == [] {
      assert Concat(ps) + rest == rest;
    } else {
      var others := ps[1..];
      EmitFull(others, rest, zero, mps);
      assert Concat(ps) + rest == ps[0] + (Concat(others) + rest);
      EmitMore(ps[0], Concat(others) + rest, zero, mps);
      assert ps == [ps[0]] + others;
    }
  }

  /** The heart of packet transparency: the IN request that loopback_complete makes
      of a finished OUT request carries exactly the packets received, zero-length
      ones included. */
  lemma EmitsWhatWasReceived(ps: seq<Packet>, mps: nat, buflen: nat)
    requires mps > 0 && EndsRequest(ps, mps, buflen)
    ensures var data := Concat(ps);
            |data| <= buflen && Emit(data, |data| < buflen, mps) == ps
  {
    var k := |ps| - 1;
    var fulls, last := ps[..k], ps[k];
    assert ps == fulls + [last];
    ConcatLast(fulls, last);
    FullLength(fulls, mps);
    var zero := |Concat(ps)| < buflen;
    if last != [] {
      EmitFull(fulls, last, zero, mps);
    } else if k > 0 {
      var front := fulls[..k - 1];
      assert fulls == front + [fulls[k - 1]];
      ConcatLast(front, fulls[k - 1]);
      EmitFull(front, fulls[k - 1], zero, mps);
      assert Concat(ps) == Concat(front) + fulls[k - 1];
    } else {
      assert Concat(ps) == [];
    }
  }
}
