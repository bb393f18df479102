/** The loopback function hands the host its own packets back: same packets, same
    order, zero-length ones included, and exactly when the buffer length is a
    positive multiple of the maximum packet size. */
module LoopbackTransparency {
  import opened LoopbackMachine
  import opened LoopbackPackets
  import opened Wdf

  /** The packets in_ep will emit for its queued requests. */
  function Carrying(cfg: Config, ts: seq<Transfer>): seq<Packet>
    requires cfg.mps > 0
  {
    if ts == [] then [] else Packets(cfg, ts[0]) + Carrying(cfg, ts[1..])
  }

  /** The packets it will emit for OUT requests whose completion has yet to run. */
  function Arrived(cfg: Config, ts: seq<Transfer>): seq<Packet>
    requires cfg.mps > 0
  {
    if ts == [] then [] else Packets(cfg, Looped(cfg, ts[0])) + Arrived(cfg, ts[1..])
  }

  function Pending(cfg: Config, s: State): seq<Packet>
    requires cfg.mps > 0 && s.emitted <= |Carrying(cfg, s.inQ)|
  {
    Carrying(cfg, s.inQ)[s.emitted..] + Arrived(cfg, s.outDone)
  }

  /** What no step breaks: the request being filled holds full packets with room
      for another, and the request being sent has a packet left. */
  ghost predicate Sound(cfg: Config, s: State)
    requires cfg.mps > 0
  {
    && AllFull(s.filling, cfg.mps) && |s.filling| * cfg.mps < cfg.buflen
    && (if s.inQ == [] then s.emitted == 0 else s.emitted < |Packets(cfg, s.inQ[0])|)
  }

  ghost predicate Transparent(cfg: Config, s: State)
    requires cfg.mps > 0
  {
    !s.aborted ==>
      && s.read <= s.sent
      && (s.inEnabled ==> s.emitted <= |Carrying(cfg, s.inQ)| && s.read + Pending(cfg, s) <= s.sent)
      && (s.inEnabled && s.outEnabled ==> s.sent == s.read + Pending(cfg, s) + s.filling)
  }

  lemma Room(k: nat, mps: nat, buflen: nat)
    requires mps > 0 && buflen % mps == 0 && k * mps < buflen
    ensures (k + 1) * mps <= buflen
  {
    var q := buflen / mps;
    assert buflen == q * mps;
    assert k < q;
    assert (k + 1) * mps <= q * mps;
  }

  lemma {:induction false} CarryingAppend(cfg: Config, ts: seq<Transfer>, t: Transfer)
    requires cfg.mps > 0
    ensures Carrying(cfg, ts + [t]) == Carrying(cfg, ts) + Packets(cfg, t)
  {
    if ts == [] {
      assert (ts + [t])[1..] == [];
    } else {
      CarryingAppend(cfg, ts[1..], t);
      assert (ts + [t])[1..] == ts[1..] + [t];
    }
  }

  lemma {:induction false} ArrivedAppend(cfg: Config, ts: seq<Transfer>, t: Transfer)
    requires cfg.mps > 0
    ensures Arrived(cfg, ts + [t]) == Arrived(cfg, ts) + Packets(cfg, Looped(cfg, t))
  {
    if ts == [] {
      assert (ts + [t])[1..] == [];
    } else {
      ArrivedAppend(cfg, ts[1..], t);
      assert (ts + [t])[1..] == ts[1..] + [t];
    }
  }

  lemma CollectedLength(cfg: Config, filling: seq<Packet>, packet: Packet)
    requires cfg.Aligned() && AllFull(filling, cfg.mps) && |filling| * cfg.mps < cfg.buflen
    requires |packet| <= cfg.mps
    ensures |Concat(filling + [packet])| == |filling| * cfg.mps + |packet| <= cfg.buflen
  {
    Room(|filling|, cfg.mps, cfg.buflen);
    assert (|filling| + 1) * cfg.mps == |filling| * cfg.mps + cfg.mps;
    ConcatLast(filling, packet);
    FullLength(filling, cfg.mps);
  }

  lemma PacketEnds(filling: seq<Packet>, packet: Packet, mps: nat, buflen: nat)
    requires AllFull(filling, mps) && |filling| * mps < buflen && |filling| * mps + |packet| <= buflen
    requires |packet| < mps || (|packet| == mps && |filling| * mps + mps == buflen)
    ensures EndsRequest(filling + [packet], mps, buflen)
  {
    var ps := filling + [packet];
    assert ps[..|ps| - 1] == filling && ps[|ps| - 1] == packet;
    assert (|filling| + 1) * mps == |filling| * mps + mps;
  }

  /** The request that packet ends comes back as the packets that filled it. */
  lemma FinishedCarries(cfg: Config, filling: seq<Packet>, packet: Packet, pair: nat)
    requires cfg.Aligned() && AllFull(filling, cfg.mps) && |filling| * cfg.mps < cfg.buflen
    requires |packet| < cfg.mps || (|packet| == cfg.mps && |Concat(filling + [packet])| == cfg.buflen)
    ensures Packets(cfg, Looped(cfg, Transfer(pair, Concat(filling + [packet]), false))) == filling + [packet]
  {
    hide Concat, Emit, EndsRequest, AllFull;
    CollectedLength(cfg, filling, packet);
    PacketEnds(filling, packet, cfg.mps, cfg.buflen);
    EmitsWhatWasReceived(filling + [packet], cfg.mps, cfg.buflen);
  }

  lemma ReceiveFinishes(cfg: Config, s: State, packet: Packet, got: Bytes)
    requires cfg.mps > 0 && Transparent(cfg, s) && s.outEnabled && s.outQ != []
    requires Packets(cfg, Looped(cfg, Transfer(s.outQ[0], got, false))) == s.filling + [packet]
    ensures Transparent(cfg, FinishOut(s.(sent := s.sent + [packet]), got))
  {
    ArrivedAppend(cfg, s.outDone, Transfer(s.outQ[0], got, false));
    if s.inEnabled && !s.aborted {
      var s' := FinishOut(s.(sent := s.sent + [packet]), got);
      assert Pending(cfg, s') == Pending(cfg, s) + (s.filling + [packet]);
      assert s'.sent == s.read + Pending(cfg, s');
      assert s'.sent == s.read + Pending(cfg, s') + [];
    }
  }

  lemma ReceiveCollects(cfg: Config, s: State, packet: Packet)
    requires cfg.mps > 0 && Transparent(cfg, s) && s.outEnabled
    ensures Transparent(cfg, s.(sent := s.sent + [packet], filling := s.filling + [packet]))
  {
    if s.inEnabled && !s.aborted {
      assert s.sent + [packet] == s.read + Pending(cfg, s) + (s.filling + [packet]);
    }
  }

  lemma ReceiveStep(cfg: Config, s: State, packet: Packet)
    requires cfg.Aligned() && Sound(cfg, s) && Transparent(cfg, s) && Enabled(cfg, s, HostOut(packet))
    ensures Transparent(cfg, Receive(cfg, s, packet))
  {
    var got := Concat(s.filling + [packet]);
    CollectedLength(cfg, s.filling, packet);
    if |packet| < cfg.mps || |got| == cfg.buflen {
      FinishedCarries(cfg, s.filling, packet, s.outQ[0]);
      ReceiveFinishes(cfg, s, packet, got);
    } else {
      ReceiveCollects(cfg, s, packet);
    }
  }

  lemma ReceiveSound(cfg: Config, s: State, packet: Packet)
    requires cfg.Aligned() && Sound(cfg, s) && Enabled(cfg, s, HostOut(packet))
    ensures Sound(cfg, Receive(cfg, s, packet))
  {
    CollectedLength(cfg, s.filling, packet);
    var filling := Receive(cfg, s, packet).filling;
    assert filling == [] || (filling == s.filling + [packet] && |packet| == cfg.mps);
    assert (|s.filling| + 1) * cfg.mps == |s.filling| * cfg.mps + cfg.mps;
  }

  lemma CarryingHead(cfg: Config, ts: seq<Transfer>, e: nat)
    requires cfg.mps > 0 && ts != [] && e < |Packets(cfg, ts[0])|
    ensures e < |Carrying(cfg, ts)|
    ensures Carrying(cfg, ts)[e..] == [Packets(cfg, ts[0])[e]] + Carrying(cfg, ts)[e + 1..]
    ensures e + 1 == |Packets(cfg, ts[0])| ==> Carrying(cfg, ts)[e + 1..] == Carrying(cfg, ts[1..])
  {
    var packets, rest := Packets(cfg, ts[0]), Carrying(cfg, ts[1..]);
    assert Carrying(cfg, ts) == packets + rest;
  }

  lemma EmitsSome(data: Bytes, zero: bool, mps: nat)
    requires mps > 0
    ensures Emit(data, zero, mps) != []
  {
  }

  lemma SendSound(cfg: Config, s: State)
    requires cfg.Aligned() && Sound(cfg, s) && Enabled(cfg, s, HostIn)
    ensures Sound(cfg, Send(cfg, s))
  {
    if |s.inQ| > 1 {
      EmitsSome(s.inQ[1].data, s.inQ[1].zero, cfg.mps);
    }
  }

  lemma SendPending(cfg: Config, s: State)
    requires cfg.mps > 0 && Enabled(cfg, s, HostIn) && s.emitted <= |Carrying(cfg, s.inQ)|
    ensures var s' := Send(cfg, s);
            && s'.emitted <= |Carrying(cfg, s'.inQ)|
            && Pending(cfg, s) == [Packets(cfg, s.inQ[0])[s.emitted]] + Pending(cfg, s')
  {
    CarryingHead(cfg, s.inQ, s.emitted);
    if s.emitted + 1 == |Packets(cfg, s.inQ[0])| {
      assert Carrying(cfg, s.inQ[1..])[0..] == Carrying(cfg, s.inQ[1..]);
    }
  }

  lemma SendStep(cfg: Config, s: State)
    requires cfg.mps > 0 && Transparent(cfg, s) && Enabled(cfg, s, HostIn)
    ensures Transparent(cfg, Send(cfg, s))
  {
    if !s.aborted {
      SendPending(cfg, s);
      var s' := Send(cfg, s);
      assert s'.read + Pending(cfg, s') == s.read + Pending(cfg, s);
    }
  }

  lemma LoopOutStep(cfg: Config, s: State, accepted: bool)
    requires cfg.mps > 0 && Transparent(cfg, s) && s.outDone != []
    ensures Transparent(cfg, LoopOut(cfg, s, accepted))
  {
    CarryingAppend(cfg, s.inQ, Looped(cfg, s.outDone[0]));
    if s.inEnabled && accepted && !s.aborted {
      assert Pending(cfg, LoopOut(cfg, s, accepted)) == Pending(cfg, s);
    }
  }

  lemma SoundStep(cfg: Config, s: State, step: Step)
    requires cfg.Aligned() && Sound(cfg, s) && Enabled(cfg, s, step)
    ensures Sound(cfg, Next(cfg, s, step))
  {
    match step
    case HostOut(packet) => ReceiveSound(cfg, s, packet);
    case HostIn => SendSound(cfg, s);
    case CompleteOut(_) => EmitsSome(s.outDone[0].data, Looped(cfg, s.outDone[0]).zero, cfg.mps);
    case AbortIn(k) =>
      if |s.inQ| > 1 {
        EmitsSome(s.inQ[1].data, s.inQ[1].zero, cfg.mps);
      }
    case _ =>
  }

  lemma TransparentStep(cfg: Config, s: State, step: Step)
    requires cfg.Aligned() && Sound(cfg, s) && Transparent(cfg, s) && Enabled(cfg, s, step)
    ensures Transparent(cfg, Next(cfg, s, step))
  {
    match step
    case HostOut(packet) => ReceiveStep(cfg, s, packet);
    case HostIn => SendStep(cfg, s);
    case CompleteOut(accepted) => LoopOutStep(cfg, s, accepted);
    case _ =>
  }

  lemma {:induction false} TransparentRun(cfg: Config, s: State, steps: seq<Step>)
    requires cfg.Aligned() && Sound(cfg, s) && Transparent(cfg, s) && CanRun(cfg, s, steps)
    ensures Transparent(cfg, Exec(cfg, s, steps))
    decreases |steps|
  {
    if steps != [] {
      SoundStep(cfg, s, steps[0]);
      TransparentStep(cfg, s, steps[0]);
      TransparentRun(cfg, Next(cfg, s, steps[0]), steps[1..]);
    }
  }

  /** In every run over an aligned buffer, until the controller aborts or refuses a request
      on an enabled endpoint:
      while both endpoints are enabled, what the host wrote is what it read, then
      what in_ep has yet to emit, then the packets of the request being filled, in
      that order; and whatever the state of the endpoints, what it read is a prefix
      of what it wrote. */
  lemma Transparency(cfg: Config, steps: seq<Step>)
    requires cfg.Aligned() && CanRun(cfg, Start(cfg), steps)
    ensures Transparent(cfg, Exec(cfg, Start(cfg), steps))
  {
    TransparentRun(cfg, Start(cfg), steps);
  }

  // ----- Alignment is exactly what it takes

  ghost predicate AlwaysTransparent(cfg: Config)
    requires cfg.mps > 0
  {
    forall steps | CanRun(cfg, Start(cfg), steps) :: Transparent(cfg, Exec(cfg, Start(cfg), steps))
  }

  lemma {:induction false} ExecAppend(cfg: Config, s: State, steps: seq<Step>, last: Step)
    requires cfg.mps > 0 && CanRun(cfg, s, steps) && Enabled(cfg, Exec(cfg, s, steps), last)
    ensures CanRun(cfg, s, steps + [last])
    ensures Exec(cfg, s, steps + [last]) == Next(cfg, Exec(cfg, s, steps), last)
    decreases |steps|
  {
    if steps == [] {
      assert [last][1..] == [];
    } else {
      ExecAppend(cfg, Next(cfg, s, steps[0]), steps[1..], last);
      assert (steps + [last])[1..] == steps[1..] + [last];
    }
  }

  function FullPackets(n: nat, mps: nat): (r: seq<Packet>)
    ensures |r| == n && AllFull(r, mps)
  {
    if n == 0 then [] else FullPackets(n - 1, mps) + [seq(mps, _ => 0)]
  }

  /** Full packets that leave room in the buffer just fill it. */
  lemma {:induction false} Fill(cfg: Config, n: nat) returns (steps: seq<Step>)
    requires cfg.Valid() && (n == 0 || n * cfg.mps < cfg.buflen)
    ensures CanRun(cfg, Start(cfg), steps)
    ensures var filled := FullPackets(n, cfg.mps);
            Exec(cfg, Start(cfg), steps) == Start(cfg).(filling := filled, sent := filled)
  {
    if n == 0 {
      steps := [];
    } else {
      assert n * cfg.mps == (n - 1) * cfg.mps + cfg.mps;
      steps := Fill(cfg, n - 1);
      var s := Exec(cfg, Start(cfg), steps);
      var packet := seq(cfg.mps, _ => 0);
      FullLength(FullPackets(n, cfg.mps), cfg.mps);
      ExecAppend(cfg, Start(cfg), steps, HostOut(packet));
      steps := steps + [HostOut(packet)];
    }
  }

  lemma OverflowLoses(cfg: Config, s: State, packet: Packet)
    requires cfg.mps > 0 && s.outQ != [] && s.inEnabled && s.outEnabled && !s.aborted
    requires s.read == [] && s.inQ == [] && s.emitted == 0 && s.outDone == []
    requires |Concat(s.filling + [packet])| > cfg.buflen
    ensures !Transparent(cfg, Receive(cfg, s, packet))
  {
    var s' := Receive(cfg, s, packet);
    assert |s'.sent| == |s.sent| + 1 && Pending(cfg, s') == [] && s'.filling == [];
  }

  /** Over any other buffer, full packets overflow it and are lost. */
  lemma Overflows(cfg: Config) returns (steps: seq<Step>)
    requires cfg.Valid() && !cfg.Aligned()
    ensures CanRun(cfg, Start(cfg), steps)
    ensures !Transparent(cfg, Exec(cfg, Start(cfg), steps))
  {
    var n := cfg.buflen / cfg.mps;
    assert n * cfg.mps <= cfg.buflen < (n + 1) * cfg.mps;
    steps := Fill(cfg, n);
    var packet := seq(cfg.mps, _ => 0);
    FullLength(FullPackets(n + 1, cfg.mps), cfg.mps);
    assert FullPackets(n + 1, cfg.mps) == FullPackets(n, cfg.mps) + [packet];
    OverflowLoses(cfg, Exec(cfg, Start(cfg), steps), packet);
    ExecAppend(cfg, Start(cfg), steps, HostOut(packet));
    steps := steps + [HostOut(packet)];
  }

  lemma TransparentExactly(cfg: Config)
    requires cfg.Valid()
    ensures AlwaysTransparent(cfg) <==> cfg.buflen > 0 && cfg.buflen % cfg.mps == 0
  {
    if cfg.Aligned() {
      forall steps | CanRun(cfg, Start(cfg), steps)
        ensures Transparent(cfg, Exec(cfg, Start(cfg), steps))
      {
        Transparency(cfg, steps);
      }
    } else {
      var steps := Overflows(cfg);
    }
  }
}
