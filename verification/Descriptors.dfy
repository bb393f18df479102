/** The configuration-descriptor walk of DumpUsbConfig (dump.c) against the
    descriptor layouts of sections 9.6.3, 9.6.5 and 9.6.6 of USB 2.0, with the other
    descriptors that section 9.5 allows between them. */
module Descriptors {
  import opened Wdf

  const CONFIGURATION_TYPE: byte := 2
  const INTERFACE_TYPE: byte := 4
  const ENDPOINT_TYPE: byte := 5

  // ----- A configuration and its bytes; extra holds bytes past the standard fields,
  // ----- others the descriptors of other types that follow

  datatype Other = Other(kind: byte, body: Bytes)

  datatype Endpoint = Endpoint(
    address: byte, attributes: byte, maxPacketLow: byte, maxPacketHigh: byte, interval: byte, extra: Bytes,
    others: seq<Other>)

  datatype Interface = Interface(
    number: byte, alternate: byte, cls: byte, subClass: byte, protocol: byte, text: byte, extra: Bytes,
    others: seq<Other>, endpoints: seq<Endpoint>)

  datatype Config = Config(
    value: byte, text: byte, attributes: byte, maxPower: byte, extra: Bytes,
    others: seq<Other>, interfaces: seq<Interface>)

  predicate OtherOk(o: Other) {
    2 + |o.body| < 0x100 && o.kind != CONFIGURATION_TYPE && o.kind != INTERFACE_TYPE && o.kind != ENDPOINT_TYPE
  }

  predicate OthersOk(os: seq<Other>) {
    forall k | 0 <= k < |os| :: OtherOk(os[k])
  }

  predicate EndpointOk(e: Endpoint) {
    7 + |e.extra| < 0x100 && OthersOk(e.others)
  }

  predicate InterfaceOk(i: Interface) {
    && 9 + |i.extra| < 0x100 && |i.endpoints| < 0x100 && OthersOk(i.others)
    && forall k | 0 <= k < |i.endpoints| :: EndpointOk(i.endpoints[k])
  }

  function OthersBytes(os: seq<Other>): Bytes
    requires OthersOk(os)
  {
    if os == [] then [] else [(2 + |os[0].body|) as byte, os[0].kind] + os[0].body + OthersBytes(os[1..])
  }

  function EndpointOwnBytes(e: Endpoint): Bytes
    requires EndpointOk(e)
  {
    [(7 + |e.extra|) as byte, ENDPOINT_TYPE, e.address, e.attributes, e.maxPacketLow, e.maxPacketHigh, e.interval]
    + e.extra
  }

  function EndpointBytes(e: Endpoint): Bytes
    requires EndpointOk(e)
  {
    EndpointOwnBytes(e) + OthersBytes(e.others)
  }

  function EndpointsBytes(es: seq<Endpoint>): Bytes
    requires forall k | 0 <= k < |es| :: EndpointOk(es[k])
  {
    if es == [] then [] else EndpointBytes(es[0]) + EndpointsBytes(es[1..])
  }

  function InterfaceOwnBytes(i: Interface): Bytes
    requires InterfaceOk(i)
  {
    [(9 + |i.extra|) as byte, INTERFACE_TYPE, i.number, i.alternate, |i.endpoints| as byte,
     i.cls, i.subClass, i.protocol, i.text] + i.extra
  }

  function InterfaceBytes(i: Interface): Bytes
    requires InterfaceOk(i)
  {
    InterfaceOwnBytes(i) + OthersBytes(i.others) + EndpointsBytes(i.endpoints)
  }

  function InterfacesBytes(ifs: seq<Interface>): Bytes
    requires forall k | 0 <= k < |ifs| :: InterfaceOk(ifs[k])
  {
    if ifs == [] then [] else InterfaceBytes(ifs[0]) + InterfacesBytes(ifs[1..])
  }

  predicate ConfigOk(c: Config) {
    && 9 + |c.extra| < 0x100 && |c.interfaces| < 0x100 && OthersOk(c.others)
    && (forall k | 0 <= k < |c.interfaces| :: InterfaceOk(c.interfaces[k]))
    && TotalLength(c) < 0x1_0000
  }

  function TotalLength(c: Config): nat
    requires OthersOk(c.others) && forall k | 0 <= k < |c.interfaces| :: InterfaceOk(c.interfaces[k])
  {
    9 + |c.extra| + |OthersBytes(c.others)| + |InterfacesBytes(c.interfaces)|
  }

  function ConfigBytes(c: Config): (b: Bytes)
    requires ConfigOk(c)
    ensures |b| == TotalLength(c)
  {
    var n := TotalLength(c);
    [(9 + |c.extra|) as byte, CONFIGURATION_TYPE, (n % 0x100) as byte, (n / 0x100) as byte, |c.interfaces| as byte,
     c.value, c.text, c.attributes, c.maxPower]
    + c.extra + OthersBytes(c.others) + InterfacesBytes(c.interfaces)
  }

  /** The offsets of tables 9-10, 9-12 and 9-13 of USB 2.0. */
  lemma ConfigOffsets(c: Config)
    requires ConfigOk(c)
    ensures var b := ConfigBytes(c);
            && b[0] as nat == 9 + |c.extra| && b[1] == 2 && b[2] as nat + 0x100 * b[3] as nat == |b|
            && b[4] as nat == |c.interfaces| && b[5] == c.value && b[6] == c.text && b[7] == c.attributes
            && b[8] == c.maxPower
  {
  }

  lemma InterfaceOffsets(i: Interface)
    requires InterfaceOk(i)
    ensures var b := InterfaceBytes(i);
            && |b| >= 9 && b[0] as nat == 9 + |i.extra| && b[1] == 4 && b[2] == i.number && b[3] == i.alternate
            && b[4] as nat == |i.endpoints| && b[5] == i.cls && b[6] == i.subClass && b[7] == i.protocol
            && b[8] == i.text
  {
    hide OthersBytes, EndpointsBytes;
    var own := InterfaceOwnBytes(i);
    assert InterfaceBytes(i) == own + (OthersBytes(i.others) + EndpointsBytes(i.endpoints));
  }

  lemma EndpointOffsets(e: Endpoint)
    requires EndpointOk(e)
    ensures var b := EndpointBytes(e);
            && |b| >= 7 && b[0] as nat == 7 + |e.extra| && b[1] == 5 && b[2] == e.address && b[3] == e.attributes
            && b[4] == e.maxPacketLow && b[5] == e.maxPacketHigh && b[6] == e.interval
  {
  }

  // ----- What the walk prints

  datatype EndpointLine = EndpointLine(
    length: byte, kind: byte, address: byte, attributes: byte, maxPacket: nat, interval: byte)

  datatype InterfaceLine = InterfaceLine(
    length: byte, kind: byte, number: byte, alternate: byte, numEndpoints: byte,
    cls: byte, subClass: byte, protocol: byte, text: byte)

  datatype Section = Section(line: InterfaceLine, endpoints: seq<EndpointLine>)

  function ShowEndpoint(e: Endpoint): EndpointLine
    requires EndpointOk(e)
  {
    EndpointLine((7 + |e.extra|) as byte, ENDPOINT_TYPE, e.address, e.attributes,
                 Word(e.maxPacketLow, e.maxPacketHigh), e.interval)
  }

  function ShowEndpoints(es: seq<Endpoint>): seq<EndpointLine>
    requires forall k | 0 <= k < |es| :: EndpointOk(es[k])
  {
    if es == [] then [] else [ShowEndpoint(es[0])] + ShowEndpoints(es[1..])
  }

  function ShowInterface(i: Interface): Section
    requires InterfaceOk(i)
  {
    Section(InterfaceLine((9 + |i.extra|) as byte, INTERFACE_TYPE, i.number, i.alternate, |i.endpoints| as byte,
                          i.cls, i.subClass, i.protocol, i.text),
            ShowEndpoints(i.endpoints))
  }

  function ShowInterfaces(ifs: seq<Interface>): seq<Section>
    requires forall k | 0 <= k < |ifs| :: InterfaceOk(ifs[k])
  {
    if ifs == [] then [] else [ShowInterface(ifs[0])] + ShowInterfaces(ifs[1..])
  }

  function Word(low: byte, high: byte): nat {
    low as nat + 0x100 * (high as nat)
  }

  // ----- The walk over a buffer b

  function ReadEndpoint(b: Bytes, at: nat): EndpointLine
    requires at + 7 <= |b|
  {
    EndpointLine(b[at], b[at + 1], b[at + 2], b[at + 3], Word(b[at + 4], b[at + 5]), b[at + 6])
  }

  function ReadInterface(b: Bytes, at: nat): InterfaceLine
    requires at + 9 <= |b|
  {
    InterfaceLine(b[at], b[at + 1], b[at + 2], b[at + 3], b[at + 4], b[at + 5], b[at + 6], b[at + 7], b[at + 8])
  }

  /** The inner loop from offset at: what it prints and where it stops, or None if
      it would read beyond b. */
  function WalkEndpoints(b: Bytes, at: nat, n: nat): Option<(seq<EndpointLine>, nat)>
    decreases n
  {
    if n == 0 then Some(([], at))
    else if at + 7 > |b| then None
    else
      var e := ReadEndpoint(b, at);
      match WalkEndpoints(b, at + e.length as nat, n - 1)
      case None => None
      case Some((es, end)) => Some(([e] + es, end))
  }

  /** One turn of the outer loop. */
  function WalkOne(b: Bytes, at: nat): Option<(Section, nat)> {
    if at + 9 > |b| then None
    else
      var i := ReadInterface(b, at);
      match WalkEndpoints(b, at + i.length as nat, i.numEndpoints as nat)
      case None => None
      case Some((es, end)) => Some((Section(i, es), end))
  }

  /** The outer loop, whose body runs before its test against wTotalLength; None also
      stands for a turn that makes no progress. */
  function Walk(b: Bytes, total: nat, at: nat): Option<(seq<Section>, nat)>
    decreases total - at
  {
    match WalkOne(b, at)
    case None => None
    case Some((s, end)) =>
      if end >= total then Some(([s], end))
      else if end <= at then None
      else
        match Walk(b, total, end)
        case None => None
        case Some((rest, stop)) => Some(([s] + rest, stop))
  }

  // ----- What lies behind the bytes that were read makes no difference

  lemma {:induction false} EndpointsExtend(b: Bytes, more: Bytes, at: nat, n: nat)
    requires WalkEndpoints(b, at, n).Some?
    ensures WalkEndpoints(b + more, at, n) == WalkEndpoints(b, at, n)
    decreases n
  {
    if n > 0 {
      assert ReadEndpoint(b + more, at) == ReadEndpoint(b, at);
      EndpointsExtend(b, more, at + b[at] as nat, n - 1);
    }
  }

  lemma OneExtends(b: Bytes, more: Bytes, at: nat)
    requires WalkOne(b, at).Some?
    ensures WalkOne(b + more, at) == WalkOne(b, at)
  {
    var i := ReadInterface(b, at);
    assert ReadInterface(b + more, at) == i;
    EndpointsExtend(b, more, at + i.length as nat, i.numEndpoints as nat);
  }

  lemma {:induction false} WalkExtends(b: Bytes, more: Bytes, total: nat, at: nat)
    requires Walk(b, total, at).Some?
    ensures Walk(b + more, total, at) == Walk(b, total, at)
    decreases total - at
  {
    OneExtends(b, more, at);
    var end := WalkOne(b, at).value.1;
    if end < total {
      WalkExtends(b, more, total, end);
    }
  }

  // ----- Configurations of nothing but interfaces and endpoints

  predicate PlainEndpoints(es: seq<Endpoint>) {
    forall k | 0 <= k < |es| :: es[k].others == []
  }

  predicate PlainInterfaces(ifs: seq<Interface>) {
    forall k | 0 <= k < |ifs| :: ifs[k].others == [] && PlainEndpoints(ifs[k].endpoints)
  }

  predicate Plain(c: Config) {
    c.others == [] && PlainInterfaces(c.interfaces)
  }

  // ----- Round trip

  /** What follows the first part of the bytes from offset at. */
  lemma Advance(b: Bytes, at: nat, first: Bytes, rest: Bytes)
    requires at <= |b| && first + rest <= b[at..]
    ensures at + |first| <= |b| && rest <= b[at + |first|..]
    ensures forall k | 0 <= k < |first| :: b[at + k] == first[k]
  {
    assert b[at..][..|first + rest|] == first + rest;
    assert forall k | 0 <= k < |first| :: b[at + k] == (first + rest)[k];
    assert b[at + |first|..] == b[at..][|first|..];
    assert b[at..][|first|..][..|rest|] == rest;
  }

  lemma EndpointRead(b: Bytes, at: nat, e: Endpoint)
    requires EndpointOk(e) && e.others == [] && at + |EndpointBytes(e)| <= |b|
    requires forall k | 0 <= k < |EndpointBytes(e)| :: b[at + k] == EndpointBytes(e)[k]
    ensures at + 7 <= |b| && ReadEndpoint(b, at) == ShowEndpoint(e)
    ensures |EndpointBytes(e)| == ShowEndpoint(e).length as nat
  {
    var own := EndpointBytes(e);
    assert own == EndpointOwnBytes(e);
    assert b[at] == own[0] && b[at + 1] == own[1] && b[at + 2] == own[2] && b[at + 3] == own[3];
    assert b[at + 4] == own[4] && b[at + 5] == own[5] && b[at + 6] == own[6];
  }

  lemma {:induction false} EndpointsRoundTrip(b: Bytes, at: nat, es: seq<Endpoint>)
    requires forall k | 0 <= k < |es| :: EndpointOk(es[k])
    requires PlainEndpoints(es) && at <= |b| && EndpointsBytes(es) <= b[at..]
    ensures WalkEndpoints(b, at, |es|) == Some((ShowEndpoints(es), at + |EndpointsBytes(es)|))
    decreases |es|
  {
    if es != [] {
      var first := EndpointBytes(es[0]);
      Advance(b, at, first, EndpointsBytes(es[1..]));
      EndpointRead(b, at, es[0]);
      EndpointsRoundTrip(b, at + |first|, es[1..]);
    }
  }

  lemma InterfaceRoundTrip(b: Bytes, at: nat, i: Interface)
    requires InterfaceOk(i) && i.others == [] && PlainEndpoints(i.endpoints)
    requires at <= |b| && InterfaceBytes(i) <= b[at..]
    ensures WalkOne(b, at) == Some((ShowInterface(i), at + |InterfaceBytes(i)|))
  {
    var own := InterfaceOwnBytes(i);
    assert InterfaceBytes(i) == own + EndpointsBytes(i.endpoints);
    Advance(b, at, own, EndpointsBytes(i.endpoints));
    assert ReadInterface(b, at) == ShowInterface(i).line;
    EndpointsRoundTrip(b, at + |own|, i.endpoints);
  }

  /** The outer loop's turn at an interface followed by the bytes rest. */
  lemma WalkTurn(b: Bytes, at: nat, i: Interface, rest: Bytes)
    requires InterfaceOk(i) && i.others == [] && PlainEndpoints(i.endpoints)
    requires at <= |b| && b[at..] == InterfaceBytes(i) + rest
    ensures var next := at + |InterfaceBytes(i)|;
            && next + |rest| == |b| && b[next..] == rest
            && (rest == [] ==> Walk(b, |b|, at) == Some(([ShowInterface(i)], |b|)))
            && (rest != [] && Walk(b, |b|, next).Some? ==>
                  Walk(b, |b|, at) ==
                  Some(([ShowInterface(i)] + Walk(b, |b|, next).value.0, Walk(b, |b|, next).value.1)))
  {
    hide InterfaceOk, PlainEndpoints, InterfaceBytes, WalkOne;
    InterfaceRoundTrip(b, at, i);
    Advance(b, at, InterfaceBytes(i), rest);
  }

  lemma {:induction false} InterfacesRoundTrip(b: Bytes, at: nat, ifs: seq<Interface>)
    requires ifs != [] && forall k | 0 <= k < |ifs| :: InterfaceOk(ifs[k])
    requires PlainInterfaces(ifs) && at <= |b| && InterfacesBytes(ifs) == b[at..]
    ensures Walk(b, |b|, at) == Some((ShowInterfaces(ifs), |b|))
    decreases |ifs|
  {
    var rest := InterfacesBytes(ifs[1..]);
    WalkTurn(b, at, ifs[0], rest);
    if |ifs| == 1 {
      assert ifs[1..] == [] && ShowInterfaces(ifs) == [ShowInterface(ifs[0])];
    } else {
      NonEmpty(ifs[1..]);
      InterfacesRoundTrip(b, at + |InterfaceBytes(ifs[0])|, ifs[1..]);
    }
  }

  lemma NonEmpty(ifs: seq<Interface>)
    requires ifs != [] && forall k | 0 <= k < |ifs| :: InterfaceOk(ifs[k])
    ensures |InterfacesBytes(ifs)| >= 9
  {
  }

  // ----- What the lines shown say about the bytes walked

  function EndpointsLength(es: seq<EndpointLine>): nat {
    if es == [] then 0 else es[0].length as nat + EndpointsLength(es[1..])
  }

  function SectionsLength(ss: seq<Section>): nat {
    if ss == [] then 0
    else ss[0].line.length as nat + EndpointsLength(ss[0].endpoints) + SectionsLength(ss[1..])
  }

  lemma {:induction false} EndpointsWalked(b: Bytes, at: nat, n: nat)
    requires WalkEndpoints(b, at, n).Some?
    ensures var (es, end) := WalkEndpoints(b, at, n).value; end == at + EndpointsLength(es)
    decreases n
  {
    if n > 0 {
      EndpointsWalked(b, at + b[at] as nat, n - 1);
    }
  }

  /** The walk takes one descriptor for each line and stops only past wTotalLength. */
  lemma {:induction false} Walked(b: Bytes, total: nat, at: nat)
    requires Walk(b, total, at).Some?
    ensures var (ss, end) := Walk(b, total, at).value;
            ss != [] && end == at + SectionsLength(ss) && end >= total
    decreases total - at
  {
    var (s, end) := WalkOne(b, at).value;
    EndpointsWalked(b, at + s.line.length as nat, s.line.numEndpoints as nat);
    if end < total {
      Walked(b, total, end);
      var rest := Walk(b, total, end).value.0;
      assert ([s] + rest)[1..] == rest;
    } else {
      assert [s][1..] == [];
    }
  }

  /** The bytes that are not in interface or endpoint descriptors. */
  function OthersIn(es: seq<Endpoint>): nat
    requires forall k | 0 <= k < |es| :: EndpointOk(es[k])
  {
    if es == [] then 0
    else
      assert EndpointOk(es[0]);
      |OthersBytes(es[0].others)| + OthersIn(es[1..])
  }

  function OthersWithin(ifs: seq<Interface>): nat
    requires forall k | 0 <= k < |ifs| :: InterfaceOk(ifs[k])
  {
    if ifs == [] then 0
    else
      assert InterfaceOk(ifs[0]);
      |OthersBytes(ifs[0].others)| + OthersIn(ifs[0].endpoints) + OthersWithin(ifs[1..])
  }

  lemma NoOthers(os: seq<Other>)
    requires OthersOk(os)
    ensures OthersBytes(os) == [] <==> os == []
  {
  }

  lemma PlainHead(es: seq<Endpoint>)
    requires es != []
    ensures PlainEndpoints(es) <==> es[0].others == [] && PlainEndpoints(es[1..])
  {
    assert forall k | 1 <= k < |es| :: es[k] == es[1..][k - 1];
  }

  lemma PlainInterfacesHead(ifs: seq<Interface>)
    requires ifs != []
    ensures PlainInterfaces(ifs) <==>
            ifs[0].others == [] && PlainEndpoints(ifs[0].endpoints) && PlainInterfaces(ifs[1..])
  {
    assert forall k | 1 <= k < |ifs| :: ifs[k] == ifs[1..][k - 1];
  }

  lemma InterfacesHead(ifs: seq<Interface>)
    requires ifs != [] && forall k | 0 <= k < |ifs| :: InterfaceOk(ifs[k])
    ensures var i := ifs[0];
            && InterfaceOk(i)
            && |InterfacesBytes(ifs)| == |InterfaceOwnBytes(i)| + |OthersBytes(i.others)|
                                         + |EndpointsBytes(i.endpoints)| + |InterfacesBytes(ifs[1..])|
            && |InterfaceOwnBytes(i)| == ShowInterface(i).line.length as nat
  {
  }

  lemma {:induction false} EndpointsMeasure(es: seq<Endpoint>)
    requires forall k | 0 <= k < |es| :: EndpointOk(es[k])
    ensures |EndpointsBytes(es)| == EndpointsLength(ShowEndpoints(es)) + OthersIn(es)
    ensures OthersIn(es) == 0 <==> PlainEndpoints(es)
  {
    if es != [] {
      EndpointsMeasure(es[1..]);
      NoOthers(es[0].others);
      PlainHead(es);
      assert ShowEndpoints(es)[1..] == ShowEndpoints(es[1..]);
    }
  }

  lemma {:induction false} InterfacesMeasure(ifs: seq<Interface>)
    requires forall k | 0 <= k < |ifs| :: InterfaceOk(ifs[k])
    ensures |InterfacesBytes(ifs)| == SectionsLength(ShowInterfaces(ifs)) + OthersWithin(ifs)
    ensures OthersWithin(ifs) == 0 <==> PlainInterfaces(ifs)
  {
    if ifs != [] {
      hide OthersBytes, OthersIn, PlainInterfaces, PlainEndpoints, InterfaceBytes, InterfacesBytes;
      var i := ifs[0];
      InterfacesMeasure(ifs[1..]);
      InterfacesHead(ifs);
      assert InterfaceOk(i);
      NoOthers(i.others);
      EndpointsMeasure(i.endpoints);
      PlainInterfacesHead(ifs);
      assert ShowInterfaces(ifs)[1..] == ShowInterfaces(ifs[1..]);
    }
  }

  // ----- Which configurations the program shows

  lemma HeaderRead(c: Config, b: Bytes)
    requires ConfigOk(c) && ConfigBytes(c) <= b
    ensures |b| >= 9 && Word(b[2], b[3]) == TotalLength(c) && b[0] as nat == 9 + |c.extra|
  {
    var own := ConfigBytes(c);
    assert forall i | 0 <= i < 9 :: b[i] == own[i];
  }

  /** A plain configuration with an interface is shown: the walk stays inside its
      wTotalLength bytes and ends exactly there. */
  lemma PlainShown(c: Config)
    requires ConfigOk(c) && Plain(c) && c.interfaces != []
    ensures Walk(ConfigBytes(c), TotalLength(c), 9 + |c.extra|) ==
            Some((ShowInterfaces(c.interfaces), TotalLength(c)))
  {
    var b, at := ConfigBytes(c), 9 + |c.extra|;
    assert b[at..] == InterfacesBytes(c.interfaces);
    InterfacesRoundTrip(b, at, c.interfaces);
  }

  lemma PlainShownIn(c: Config, b: Bytes)
    requires ConfigOk(c) && Plain(c) && c.interfaces != [] && ConfigBytes(c) <= b
    ensures Walk(b, TotalLength(c), 9 + |c.extra|) == Some((ShowInterfaces(c.interfaces), TotalLength(c)))
  {
    hide Plain, Walk, ShowInterfaces;
    var own := ConfigBytes(c);
    PlainShown(c);
    WalkExtends(own, b[|own|..], TotalLength(c), 9 + |c.extra|);
    assert own + b[|own|..] == b;
  }

  /** Without interfaces the walk starts where the configuration ends. */
  lemma EmptyOverruns(c: Config, b: Bytes)
    requires ConfigOk(c) && c.interfaces == [] && c.others == []
    ensures |b| < TotalLength(c) + 9 ==> Walk(b, TotalLength(c), 9 + |c.extra|) == None
  {
  }

  /** And only such a one is, wherever the walk ends. */
  lemma OnlyPlainShown(c: Config, b: Bytes)
    requires ConfigOk(c) && Walk(b, TotalLength(c), 9 + |c.extra|).Some?
    requires Walk(b, TotalLength(c), 9 + |c.extra|).value.0 == ShowInterfaces(c.interfaces)
    ensures c.interfaces != [] && Plain(c)
  {
    Walked(b, TotalLength(c), 9 + |c.extra|);
    InterfacesMeasure(c.interfaces);
    NoOthers(c.others);
  }

  /** For every well-formed configuration, whatever lies behind it in the buffer: the
      program shows its interfaces and endpoints, in order and nothing else, if and only
      if there is an interface and no descriptor of another type. */
  lemma RoundTrip(c: Config, b: Bytes)
    requires ConfigOk(c) && ConfigBytes(c) <= b
    ensures var shown := Walk(b, Word(b[2], b[3]), b[0] as nat);
            && (shown.Some? && shown.value.0 == ShowInterfaces(c.interfaces) <==> c.interfaces != [] && Plain(c))
            && (c.interfaces != [] && Plain(c) ==> shown.value.1 == TotalLength(c))
            && (c.interfaces == [] && c.others == [] && |b| < TotalLength(c) + 9 ==> shown == None)
  {
    hide ConfigBytes, Plain, Walk, ShowInterfaces;
    HeaderRead(c, b);
    if c.interfaces != [] && Plain(c) {
      PlainShownIn(c, b);
    } else if Walk(b, TotalLength(c), 9 + |c.extra|).Some? {
      if Walk(b, TotalLength(c), 9 + |c.extra|).value.0 == ShowInterfaces(c.interfaces) {
        OnlyPlainShown(c, b);
      }
      if c.interfaces == [] && c.others == [] {
        EmptyOverruns(c, b);
      }
    }
  }

  /** And behind one without interfaces it shows an interface that is not there: the
      next nine bytes of the buffer, all zero as the program clears them. */
  lemma EmptyConfigInBuffer(c: Config, b: Bytes)
    requires ConfigOk(c) && c.interfaces == [] && c.others == []
    requires ConfigBytes(c) <= b && |b| >= TotalLength(c) + 9
    requires forall i | TotalLength(c) <= i < |b| :: b[i] == 0
    ensures Walk(b, Word(b[2], b[3]), b[0] as nat) ==
            Some(([Section(InterfaceLine(0, 0, 0, 0, 0, 0, 0, 0, 0), [])], TotalLength(c)))
  {
    HeaderRead(c, b);
    var at := TotalLength(c);
    assert ReadInterface(b, at) == InterfaceLine(0, 0, 0, 0, 0, 0, 0, 0, 0);
  }

  // ----- The UDEFX2 device

  /** g_UsbConfigDescriptorSet, descriptor by descriptor */
  const SET_CONFIGURATION: Bytes := [0x09, 0x02, 0x27, 0x00, 0x01, 0x01, 0x00, 0xA0, 0x32]
  const SET_INTERFACE: Bytes := [0x09, 0x04, 0x00, 0x00, 0x03, 0xFF, 0x00, 0x00, 0x00]
  const SET_BULK_OUT: Bytes := [0x07, 0x05, 0x02, 0x02, 0x00, 0x02, 0x00]
  const SET_BULK_IN: Bytes := [0x07, 0x05, 0x84, 0x02, 0x00, 0x02, 0x00]
  const SET_INTERRUPT_IN: Bytes := [0x07, 0x05, 0x86, 0x03, 0x40, 0x00, 0x01]

  const UDEFX2_SET: Bytes :=
    SET_CONFIGURATION + (SET_INTERFACE + (SET_BULK_OUT + SET_BULK_IN + SET_INTERRUPT_IN))

  const BULK_OUT := Endpoint(0x02, 2, 0x00, 0x02, 0, [], [])
  const BULK_IN := Endpoint(0x84, 2, 0x00, 0x02, 0, [], [])
  const INTERRUPT_IN := Endpoint(0x86, 3, 0x40, 0x00, 1, [], [])

  const UDEFX2_CONFIG :=
    Config(1, 0, 0xA0, 0x32, [], [], [Interface(0, 0, 0xFF, 0, 0, 0, [], [], [BULK_OUT, BULK_IN, INTERRUPT_IN])])

  lemma Udefx2Interfaces()
    ensures InterfaceOk(UDEFX2_CONFIG.interfaces[0])
    ensures InterfacesBytes(UDEFX2_CONFIG.interfaces)
            == SET_INTERFACE + (SET_BULK_OUT + SET_BULK_IN + SET_INTERRUPT_IN)
  {
    var ifs := UDEFX2_CONFIG.interfaces;
    EndpointsOfThree(BULK_OUT, BULK_IN, INTERRUPT_IN);
    assert ifs[1..] == [] && InterfacesBytes(ifs) == InterfaceBytes(ifs[0]);
    assert InterfaceOwnBytes(ifs[0]) == SET_INTERFACE;
    assert EndpointBytes(BULK_OUT) == SET_BULK_OUT;
    assert EndpointBytes(BULK_IN) == SET_BULK_IN;
    assert EndpointBytes(INTERRUPT_IN) == SET_INTERRUPT_IN;
  }

  /** The shipped bytes are the serialisation of one interface with two 512-byte
      bulk endpoints and a 64-byte interrupt endpoint ... */
  lemma Udefx2Bytes()
    ensures ConfigOk(UDEFX2_CONFIG) && ConfigBytes(UDEFX2_CONFIG) == UDEFX2_SET
    ensures TotalLength(UDEFX2_CONFIG) == 39 && Plain(UDEFX2_CONFIG)
  {
    Udefx2Interfaces();
    var rest := InterfacesBytes(UDEFX2_CONFIG.interfaces);
    assert |rest| == 30 && TotalLength(UDEFX2_CONFIG) == 39;
    assert ConfigBytes(UDEFX2_CONFIG) == SET_CONFIGURATION + rest;
  }

  /** ... and the walk over them shows exactly those. */
  lemma Udefx2RoundTrip()
    ensures ConfigOk(UDEFX2_CONFIG)
    ensures Walk(UDEFX2_SET, 39, 9) == Some((ShowInterfaces(UDEFX2_CONFIG.interfaces), 39))
  {
    hide Walk, ConfigOk, ConfigBytes, TotalLength, ShowInterfaces, Plain;
    Udefx2Bytes();
    PlainShown(UDEFX2_CONFIG);
  }

  // ----- The loopback gadget on an OTG controller

  /** Its configuration at high speed: an OTG descriptor stands before the interface. */
  const OTG_CONFIG :=
    Config(2, 0, 0xE0, 1, [], [Other(9, [3])],
           [Interface(0, 0, 0xFF, 0, 0, 0, [], [],
                      [Endpoint(0x81, 2, 0x00, 0x02, 0, [], []), Endpoint(0x01, 2, 0x00, 0x02, 0, [], [])])])

  const OTG_HEADER: Bytes := [9, 2, 35, 0, 1, 2, 0, 0xE0, 1]
  const OTG_OTHER: Bytes := [3, 9, 3]
  const OTG_INTERFACE: Bytes := [9, 4, 0, 0, 2, 0xFF, 0, 0, 0]
  const OTG_BULK_IN: Bytes := [7, 5, 0x81, 2, 0x00, 0x02, 0]
  const OTG_BULK_OUT: Bytes := [7, 5, 0x01, 2, 0x00, 0x02, 0]

  const OTG_SET: Bytes := OTG_HEADER + OTG_OTHER + (OTG_INTERFACE + (OTG_BULK_IN + OTG_BULK_OUT))

  lemma OtgInterfaces()
    ensures InterfaceOk(OTG_CONFIG.interfaces[0]) && OthersOk(OTG_CONFIG.others)
    ensures InterfacesBytes(OTG_CONFIG.interfaces) == OTG_INTERFACE + (OTG_BULK_IN + OTG_BULK_OUT)
    ensures OthersBytes(OTG_CONFIG.others) == OTG_OTHER
  {
    var ifs, os := OTG_CONFIG.interfaces, OTG_CONFIG.others;
    var es := ifs[0].endpoints;
    assert es[1..] == [es[1]] && es[1..][1..] == [] && ifs[1..] == [] && os[1..] == [];
    assert InterfacesBytes(ifs) == InterfaceBytes(ifs[0]);
    assert InterfaceOwnBytes(ifs[0]) == OTG_INTERFACE;
    assert EndpointBytes(es[0]) == OTG_BULK_IN;
    assert EndpointBytes(es[1]) == OTG_BULK_OUT;
  }

  lemma OtgBytes()
    ensures ConfigOk(OTG_CONFIG) && ConfigBytes(OTG_CONFIG) == OTG_SET
  {
    OtgInterfaces();
    assert TotalLength(OTG_CONFIG) == 35;
  }

  lemma OtgAt(b: Bytes)
    requires OTG_SET <= b
    ensures |OTG_SET| == 35
    ensures b[9] == 3 && b[10] == 9 && b[12] == 9 && b[13] == 4 && b[21] == 7 && b[28] == 7
  {
    var ifs := OTG_INTERFACE + (OTG_BULK_IN + OTG_BULK_OUT);
    assert forall i | 0 <= i < 35 :: b[i] == OTG_SET[i];
    assert forall i | 9 <= i < 12 :: OTG_SET[i] == OTG_OTHER[i - 9];
    assert forall i | 12 <= i < 35 :: OTG_SET[i] == ifs[i - 12];
    assert ifs[0] == OTG_INTERFACE[0] && ifs[1] == OTG_INTERFACE[1];
    assert ifs[9] == OTG_BULK_IN[0] && ifs[16] == OTG_BULK_OUT[0];
  }

  /** The inner loop over it, up to the end of the configuration. */
  lemma OtgEndpoints(b: Bytes)
    requires |b| >= 35 && b[12] == 9 && b[21] == 7 && b[28] == 7
    ensures if |b| < 42 then WalkEndpoints(b, 12, 4) == None
            else WalkEndpoints(b, 12, 4).Some? && |WalkEndpoints(b, 12, 4).value.0| == 4
                 && WalkEndpoints(b, 12, 4).value.1 == 35 + b[35] as nat
  {
    assert |b| >= 42 ==> WalkEndpoints(b, 35 + b[35] as nat, 0) == Some(([], 35 + b[35] as nat));
    var w1, w2, w3 := WalkEndpoints(b, 35, 1), WalkEndpoints(b, 28, 2), WalkEndpoints(b, 21, 3);
    assert if |b| < 42 then w1 == None else w1.Some? && |w1.value.0| == 1 && w1.value.1 == 35 + b[35] as nat;
    assert if |b| < 42 then w2 == None else w2.Some? && |w2.value.0| == 2 && w2.value.1 == 35 + b[35] as nat;
    assert if |b| < 42 then w3 == None else w3.Some? && |w3.value.0| == 3 && w3.value.1 == 35 + b[35] as nat;
  }

  /** The program takes the OTG descriptor for an interface with four endpoints, and
      the fourth lies past wTotalLength. */
  lemma OtgMisread(b: Bytes)
    requires OTG_SET <= b
    ensures |b| < 42 ==> Walk(b, 35, 9) == None
    ensures |b| >= 42 ==>
              var shown := Walk(b, 35, 9);
              && shown.Some? && |shown.value.0| == 1 && |shown.value.0[0].endpoints| == 4
              && shown.value.0[0].line.kind == 9 && shown.value.1 >= 35
  {
    hide WalkEndpoints;
    OtgAt(b);
    OtgEndpoints(b);
  }

  lemma EndpointsOfThree(x: Endpoint, y: Endpoint, z: Endpoint)
    requires EndpointOk(x) && EndpointOk(y) && EndpointOk(z)
    ensures EndpointsBytes([x, y, z]) == EndpointBytes(x) + EndpointBytes(y) + EndpointBytes(z)
  {
    assert [x, y, z][1..] == [y, z] && [y, z][1..] == [z] && [z][1..] == [];
    assert EndpointsBytes([z]) == EndpointBytes(z);
  }

  lemma SamePrefix<T>(a: seq<T>, x: seq<T>, y: seq<T>)
    ensures a + x == a + y <==> x == y
  {
    assert (a + x)[|a|..] == x && (a + y)[|a|..] == y;
  }

  // ----- The program's loop over its 256-byte buffer

  class Dumper {
    const buf: array<byte>
    var printed: seq<Section>

    constructor ()
      ensures buf.Length == 256 && printed == [] && fresh(buf)
    {
      buf := new byte[256](_ => 0);
      printed := [];
    }

    method ReadEndpointAt(pch: nat) returns (ed: EndpointLine)
      requires pch + 7 <= buf.Length
      ensures ed == ReadEndpoint(buf[..], pch)
      ensures ed.length == buf[pch] && ed.kind == buf[pch + 1] && ed.address == buf[pch + 2]
      ensures ed.attributes == buf[pch + 3] && ed.interval == buf[pch + 6]
      ensures ed.maxPacket == buf[pch + 4] as nat + 0x100 * buf[pch + 5] as nat
    {
      ed := EndpointLine(buf[pch], buf[pch + 1], buf[pch + 2], buf[pch + 3],
                         Word(buf[pch + 4], buf[pch + 5]), buf[pch + 6]);
    }

    method ReadInterfaceAt(pch: nat) returns (id: InterfaceLine)
      requires pch + 9 <= buf.Length
      ensures id == ReadInterface(buf[..], pch)
      ensures id.length == buf[pch] && id.kind == buf[pch + 1] && id.number == buf[pch + 2]
      ensures id.alternate == buf[pch + 3] && id.numEndpoints == buf[pch + 4] && id.cls == buf[pch + 5]
      ensures id.subClass == buf[pch + 6] && id.protocol == buf[pch + 7] && id.text == buf[pch + 8]
    {
      id := InterfaceLine(buf[pch], buf[pch + 1], buf[pch + 2], buf[pch + 3], buf[pch + 4],
                          buf[pch + 5], buf[pch + 6], buf[pch + 7], buf[pch + 8]);
    }

    /** The inner loop of DumpUsbConfig. */
    method DumpEndpoints(start: nat, n: nat) returns (eds: seq<EndpointLine>, pch: nat)
      requires WalkEndpoints(buf[..], start, n).Some?
      ensures WalkEndpoints(buf[..], start, n) == Some((eds, pch))
    {
      ghost var b := buf[..];
      eds, pch := [], start;
      var j: nat := 0;
      while j < n
        invariant j <= n
        invariant var all, left := WalkEndpoints(b, start, n), WalkEndpoints(b, pch, n - j);
                  left.Some? && all.value.0 == eds + left.value.0 && all.value.1 == left.value.1
      {
        var ed := ReadEndpointAt(pch);
        pch := pch + ed.length as nat;
        eds := eds + [ed];
        j := j + 1;
      }
      assert eds + [] == eds;
    }

    /** The body of the outer loop. */
    method DumpSection(start: nat) returns (section: Section, pch: nat)
      requires WalkOne(buf[..], start).Some?
      ensures WalkOne(buf[..], start) == Some((section, pch))
    {
      var id := ReadInterfaceAt(start);
      var eds;
      eds, pch := DumpEndpoints(start + id.length as nat, id.numEndpoints as nat);
      section := Section(id, eds);
    }

    /** DumpUsbConfig after a successful IOCTL, for any contents over which it stays
        inside its array and comes to an end. */
    method Dump()
      requires buf.Length == 256 && Walk(buf[..], Word(buf[2], buf[3]), buf[0] as nat).Some?
      modifies this`printed
      ensures printed == old(printed) + Walk(buf[..], Word(buf[2], buf[3]), buf[0] as nat).value.0
    {
      ghost var b, total, was := buf[..], Word(buf[2], buf[3]), printed;
      var pch: nat := buf[0] as nat;
      ghost var all := was + Walk(b, total, pch).value.0;
      var more := true;
      while more
        invariant if more then Walk(b, total, pch).Some? && all == printed + Walk(b, total, pch).value.0
                  else all == printed
        decreases more, if pch < total then total - pch else 0
      {
        var section;
        section, pch := DumpSection(pch);
        printed := printed + [section];
        more := pch < Word(buf[2], buf[3]);
      }
    }

    /** For a buffer that starts with a well-formed configuration it shows exactly the
        interfaces and endpoints of that configuration, in order, if and only if there
        is an interface and no descriptor of another type. */
    method DumpConfiguration(ghost c: Config)
      requires buf.Length == 256 && ConfigOk(c) && ConfigBytes(c) <= buf[..]
      requires Walk(buf[..], Word(buf[2], buf[3]), buf[0] as nat).Some? || (c.interfaces != [] && Plain(c))
      modifies this`printed
      ensures printed == old(printed) + ShowInterfaces(c.interfaces) <==> c.interfaces != [] && Plain(c)
    {
      RoundTrip(c, buf[..]);
      ghost var shown := Walk(buf[..], Word(buf[2], buf[3]), buf[0] as nat).value.0;
      SamePrefix(printed, shown, ShowInterfaces(c.interfaces));
      Dump();
    }
  }
}
