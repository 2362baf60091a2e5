// Frames the display sends (user/can_cmd.c), the clamped variable write (write_var_to_plc in
// user/menu.c), and what the same decoder at a peer makes of them.
module CanCmd {
  import opened Bytes
  import opened PlcImage
  import opened CanRing

  const LCD_CAN_ADDR: byte := 2

  // The identifier's fields are disjoint, so the C code's bitwise OR is a sum.
  function FrameId(service: nat, node: byte, cluster: byte): u16
    requires service < 8 && node < 16 && cluster < 8
  {
    0x400 + service + 8 * node + 128 * cluster
  }

  // Node and cluster addresses as the decoder extracts them.
  predicate AddrOk(l: Link) {
    l.plcAddr < 16 && l.clusterAddr < 8
  }

  function BitPacket(node: byte, cluster: byte, eoid: byte, address: int, value: byte): Packet
    requires node < 16 && cluster < 8
  {
    Packet(FrameId(7, node, cluster), [eoid, address % 256, if value != 0 then 1 else 0, 1])
  }

  function RegPacket(cluster: byte, eoid: byte, address: int, value: u16): Packet
    requires cluster < 8
  {
    Packet(FrameId(7, LCD_CAN_ADDR, cluster), [eoid, address % 256, value % 256, value / 256])
  }

  // write_clust_bit is sent under the controller's own address, the others under the display's.
  function ClustBitPacket(l: Link, num: u16, value: byte): Packet
    requires AddrOk(l)
  {
    BitPacket(l.plcAddr, l.clusterAddr, 0x03, num + 16, value)
  }

  function NetBitPacket(l: Link, num: u16, value: byte): Packet
    requires AddrOk(l)
  {
    BitPacket(LCD_CAN_ADDR, l.clusterAddr, 0x0E, l.clusterAddr * 16 + num + 1, value)
  }

  // write_clust_reg and write_net_reg send what the register table holds.
  function ClustRegPacket(m: Image, num: u16): Packet
    requires AddrOk(m.link) && num < |m.clustRegs.plc|
  {
    RegPacket(m.link.clusterAddr, 0x06, num + 17, m.clustRegs.plc[num])
  }

  function NetRegPacket(m: Image, num: u16): Packet
    requires AddrOk(m.link) && num < |m.netRegs.plc|
  {
    RegPacket(m.link.clusterAddr, 0x0F, m.link.clusterAddr * 16 + num + 1, m.netRegs.plc[num])
  }

  function HeartbeatPacket(l: Link, value: byte): Packet
    requires AddrOk(l)
  {
    Packet(FrameId(1, LCD_CAN_ADDR, l.clusterAddr), [0x49, value])
  }

  function DigitsPacket(l: Link, state: byte, fault: byte, mask: byte): Packet
    requires AddrOk(l)
  {
    Packet(FrameId(7, LCD_CAN_ADDR, l.clusterAddr), [0x01, 0x01, state, fault, mask])
  }

  // Variable writes -----------------------------------------------------------------------

  datatype VarKind = ClustReg | NetReg | ClustBit | NetBit | OtherVar

  datatype ManageVar = ManageVar(min: u32, max: u32, value: u32, kind: VarKind, index: u16)

  function Clamped(v: ManageVar): u32 {
    var capped := if v.value > v.max then v.max else v.value;
    if capped < v.min then v.min else capped
  }

  function Limit(kind: VarKind): nat {
    match kind
    case ClustReg => CLUST_REGS
    case NetReg => NET_REGS
    case ClustBit => CLUST_BITS
    case NetBit => NET_BITS
    case OtherVar => 0
  }

  // The local effect on the tables: registers keep 16 bits of the value, bits keep 8.
  function Stored(m: Image, v: ManageVar): Image {
    var i, x := v.index, Clamped(v);
    match v.kind
    case ClustReg => m.(clustRegs := TwinReg(m.clustRegs, i, x % U16))
    case NetReg => m.(netRegs := TwinReg(m.netRegs, i, x % U16))
    case ClustBit => m.(clustBits := TwinReg(m.clustBits, i, x % 256))
    case NetBit => m.(netBits := TwinReg(m.netBits, i, x % 256))
    case OtherVar => m
  }

  predicate Sends(m: Image, v: ManageVar) {
    m.link.up && v.index < Limit(v.kind)
  }

  // write_var_to_plc: the new image, and the packet queued, if any.
  function Wrote(m: Image, v: ManageVar): (Image, Option<Packet>)
    requires ImageShape(m) && AddrOk(m.link)
  {
    if !Sends(m, v) then (m, None)
    else
      var m' := Stored(m, v);
      (m', Some(match v.kind
                case ClustReg => ClustRegPacket(m', v.index)
                case NetReg => NetRegPacket(m', v.index)
                case ClustBit => ClustBitPacket(m.link, v.index, Clamped(v) % 256)
                case _ => NetBitPacket(m.link, v.index, Clamped(v) % 256)))
  }

  class Display {
    const node: PlcNode
    const tx: TxStack

    ghost predicate Valid()
      reads node, tx, tx.slots
    {
      node.Valid() && tx.Valid() && AddrOk(node.link)
    }

    constructor (node: PlcNode, tx: TxStack)
      requires node.Valid() && tx.Valid() && AddrOk(node.link)
      ensures Valid() && this.node == node && this.tx == tx
    {
      this.node, this.tx := node, tx;
    }

    method WriteVarToPlc(v: ManageVar) returns (clamped: u32)
      requires Valid()
      modifies node, tx, tx.slots
      ensures Valid()
      ensures var (m', p) := Wrote(old(node.View()), v);
        && node.View() == m'
        && tx.View() == if p.Some? then Added(old(tx.View()), p.value) else old(tx.View())
      ensures clamped == if old(node.link.up) then Clamped(v) else v.value
    {
      hide RegPacket, BitPacket, FrameId, Added, ValidRing;
      clamped := v.value;
      if !node.link.up {
        return;
      }
      if clamped > v.max {
        clamped := v.max;
      }
      if clamped < v.min {
        clamped := v.min;
      }
      var i := v.index;
      if v.kind == ClustReg && i < CLUST_REGS {
        node.clustRegs := Twin(node.clustRegs.plc[i := clamped % U16], node.clustRegs.cl[i := clamped % U16]);
        tx.Add(ClustRegPacket(node.View(), i));
      } else if v.kind == NetReg && i < NET_REGS {
        node.netRegs := Twin(node.netRegs.plc[i := clamped % U16], node.netRegs.cl[i := clamped % U16]);
        tx.Add(NetRegPacket(node.View(), i));
      } else if v.kind == ClustBit && i < CLUST_BITS {
        node.clustBits := Twin(node.clustBits.plc[i := clamped % 256], node.clustBits.cl[i := clamped % 256]);
        tx.Add(ClustBitPacket(node.link, i, clamped % 256));
      } else if v.kind == NetBit && i < NET_BITS {
        node.netBits := Twin(node.netBits.plc[i := clamped % 256], node.netBits.cl[i := clamped % 256]);
        tx.Add(NetBitPacket(node.link, i, clamped % 256));
      }
    }
  }

  // What a peer makes of it ------------------------------------------------------------------

  // The frame a packet arrives as; bytes behind its length are arbitrary.
  ghost predicate ArrivesAs(p: Packet, f: Frame) {
    f.id == p.id && |f.data| == 8 && |p.data| <= 8 && f.data[..|p.data|] == p.data
  }

  // The peer's tables with entry v.index set, and nothing else.
  function PeerStored(m: Image, v: ManageVar): Image {
    var i, reg, bit := v.index, Clamped(v) % U16, if Clamped(v) % 256 != 0 then 1 else 0;
    match v.kind
    case ClustReg => m.(clustRegs := TwinReg(m.clustRegs, i, reg))
    case NetReg => m.(netRegs := TwinReg(m.netRegs, i, reg))
    case ClustBit => m.(clustBits := TwinReg(m.clustBits, i, bit))
    case NetBit => m.(netBits := TwinReg(m.netBits, i, bit))
    case OtherVar => m
  }

  lemma IdFields(service: nat, node: byte, cluster: byte)
    requires service < 8 && node < 16 && cluster < 8
    ensures var id := FrameId(service, node, cluster);
      Service(id) == service && NodeAddr(id) == node && ClusterAddr(id) == cluster
  {
  }

  // A one-bit mask touches exactly the entry at its base.
  lemma OneBit(t: Twin, base: nat, on: bool)
    requires base < |t.plc| == |t.cl|
    ensures TwinBits(t, base, if on then 1 else 0, 1) == TwinReg(t, base, if on then 1 else 0)
  {
    assert Bit(1, 0) && (forall i :: 1 <= i < 8 ==> !Bit(1, i)) && !Bit(0, 0);
  }

  lemma ArrivedBytes(p: Packet, f: Frame)
    requires ArrivesAs(p, f)
    ensures forall i :: 0 <= i < |p.data| ==> f.data[i] == p.data[i]
  {
    assert forall i :: 0 <= i < |p.data| ==> f.data[..|p.data|][i] == p.data[i];
  }

  // The decoder on a frame with a single-entry bit or register payload.
  lemma DecodesEntry(f: Frame, peer: Image, i: nat, bit: bool)
    requires |f.data| == 8 && ImageShape(peer) && Service(f.id) == 7
    requires f.data[0] == 0x03 || f.data[0] == 0x06 || f.data[0] == 0x0E || f.data[0] == 0x0F
    requires f.data[0] == 0x03 ==> f.data[1] == i + 16 && i < CLUST_BITS
    requires f.data[0] == 0x06 ==> f.data[1] == i + 17 && i < CLUST_REGS
    requires f.data[0] == 0x0E ==> NetIndex(f.data[1], ClusterAddr(f.id)) == i && i < NET_BITS
    requires f.data[0] == 0x0F ==> NetIndex(f.data[1], ClusterAddr(f.id)) == i && i < NET_REGS
    requires f.data[0] == 0x03 || f.data[0] == 0x0E ==> f.data[2] == (if bit then 1 else 0) && f.data[3] == 1
    ensures WellFormed(f)
    ensures Decoded(peer, f) ==
      if f.data[0] == 0x03 then peer.(clustBits := TwinReg(peer.clustBits, i, if bit then 1 else 0))
      else if f.data[0] == 0x06 then peer.(clustRegs := TwinReg(peer.clustRegs, i, Word(f.data)))
      else if f.data[0] == 0x0E then peer.(netBits := TwinReg(peer.netBits, i, if bit then 1 else 0))
      else peer.(netRegs := TwinReg(peer.netRegs, i, Word(f.data)))
  {
    hide TwinBits, TwinReg, DinsDecoded, DoutsDecoded, NetIndex, ClusterAddr;
    if f.data[0] == 0x03 {
      OneBit(peer.clustBits, i, bit);
    } else if f.data[0] == 0x0E {
      OneBit(peer.netBits, i, bit);
    }
  }

  lemma PeerGetsBit(l: Link, net: bool, i: u16, value: byte, f: Frame, peer: Image)
    requires AddrOk(l) && ImageShape(peer) && i < (if net then NET_BITS else CLUST_BITS)
    requires ArrivesAs(if net then NetBitPacket(l, i, value) else ClustBitPacket(l, i, value), f)
    ensures WellFormed(f)
    ensures Decoded(peer, f) ==
      if net then peer.(netBits := TwinReg(peer.netBits, i, if value != 0 then 1 else 0))
      else peer.(clustBits := TwinReg(peer.clustBits, i, if value != 0 then 1 else 0))
  {
    hide Decoded, TwinReg, NetIndex, Service, NodeAddr, ClusterAddr;
    var node := if net then LCD_CAN_ADDR else l.plcAddr;
    ArrivedBytes(if net then NetBitPacket(l, i, value) else ClustBitPacket(l, i, value), f);
    IdFields(7, node, l.clusterAddr);
    assert f.id == FrameId(7, node, l.clusterAddr);
    hide FrameId;
    if net {
      NetIndexInverts(l.clusterAddr, i);
    }
    DecodesEntry(f, peer, i, value != 0);
  }

  lemma PeerGetsReg(m: Image, net: bool, i: u16, f: Frame, peer: Image)
    requires ImageShape(m) && AddrOk(m.link) && ImageShape(peer) && i < (if net then NET_REGS else CLUST_REGS)
    requires ArrivesAs(if net then NetRegPacket(m, i) else ClustRegPacket(m, i), f)
    ensures WellFormed(f)
    ensures Decoded(peer, f) ==
      if net then peer.(netRegs := TwinReg(peer.netRegs, i, m.netRegs.plc[i]))
      else peer.(clustRegs := TwinReg(peer.clustRegs, i, m.clustRegs.plc[i]))
  {
    hide Decoded, TwinReg, NetIndex, Service, NodeAddr, ClusterAddr;
    ArrivedBytes(if net then NetRegPacket(m, i) else ClustRegPacket(m, i), f);
    IdFields(7, LCD_CAN_ADDR, m.link.clusterAddr);
    hide FrameId;
    if net {
      NetIndexInverts(m.link.clusterAddr, i);
    }
    DecodesEntry(f, peer, i, false);
  }

  // Decoding a variable write at any peer sets exactly that entry to the clamped value.
  lemma PeerGetsWrite(m: Image, v: ManageVar, f: Frame, peer: Image)
    requires ImageShape(m) && AddrOk(m.link) && ImageShape(peer)
    requires Sends(m, v) && ArrivesAs(Wrote(m, v).1.value, f)
    ensures WellFormed(f) && Decoded(peer, f) == PeerStored(peer, v)
  {
    hide Decoded, WellFormed, ArrivesAs, ClustBitPacket, NetBitPacket, ClustRegPacket, NetRegPacket;
    var m' := Stored(m, v);
    match v.kind
    case ClustReg => PeerGetsReg(m', false, v.index, f, peer);
    case NetReg => PeerGetsReg(m', true, v.index, f, peer);
    case ClustBit => PeerGetsBit(m.link, false, v.index, Clamped(v) % 256, f, peer);
    case NetBit => PeerGetsBit(m.link, true, v.index, Clamped(v) % 256, f, peer);
  }

  // The register a write leaves is the clamped value itself exactly when 16 bits hold the lower
  // limit and one of value and upper limit; it lies within the limits exactly when they are ordered.
  lemma RegisterIsClampedIff(m: Image, v: ManageVar)
    requires ImageShape(m) && AddrOk(m.link) && Sends(m, v) && (v.kind == ClustReg || v.kind == NetReg)
    ensures var m' := Wrote(m, v).0;
      var reg := if v.kind == ClustReg then m'.clustRegs.plc[v.index] else m'.netRegs.plc[v.index];
      && (reg == Clamped(v) <==> v.min < U16 && (v.value < U16 || v.max < U16))
      && (v.min <= Clamped(v) <= v.max <==> v.min <= v.max)
      && (v.min <= v.value <= v.max ==> Clamped(v) == v.value)
  {
  }

  lemma NetIndexInverts(cluster: byte, num: u16)
    requires cluster < 8 && num < 16
    ensures NetIndex((cluster * 16 + num + 1) % 256, cluster) == num
  {
  }

  function BitEntry(m: Image, v: ManageVar): u16
    requires ImageShape(m) && (v.kind == ClustBit || v.kind == NetBit) && v.index < Limit(v.kind)
  {
    if v.kind == ClustBit then m.clustBits.plc[v.index] else m.netBits.plc[v.index]
  }

  // Sender and peer agree on a written bit, of the cluster or the network, exactly when the
  // clamped value's low byte is 0 or 1; the sender keeps that byte, the wire carries only zero or
  // non-zero.
  lemma BitAgreesIff(m: Image, v: ManageVar, peer: Image)
    requires ImageShape(m) && AddrOk(m.link) && ImageShape(peer)
    requires Sends(m, v) && (v.kind == ClustBit || v.kind == NetBit)
    ensures ImageShape(PeerStored(peer, v)) && ImageShape(Wrote(m, v).0)
    ensures BitEntry(PeerStored(peer, v), v) == BitEntry(Wrote(m, v).0, v) <==> Clamped(v) % 256 <= 1
  {
  }

  // What the value becomes: within ordered limits the nearest value; the lower limit wins if they
  // are not ordered.
  lemma ClampedIs(v: ManageVar)
    ensures v.min <= v.max ==> v.min <= Clamped(v) <= v.max
    ensures v.min <= v.value <= v.max ==> Clamped(v) == v.value
    ensures v.value > v.max >= v.min ==> Clamped(v) == v.max
    ensures v.value < v.min || v.max < v.min ==> Clamped(v) == v.min
  {
  }

  // Entry i of both copies becomes x, all others stay.
  ghost predicate EntrySet(was: Twin, now: Twin, i: nat, x: int) {
    && |now.plc| == |was.plc| && |now.cl| == |was.cl|
    && (forall j :: 0 <= j < |was.plc| ==> now.plc[j] == if j == i then x else was.plc[j])
    && forall j :: 0 <= j < |was.cl| ==> now.cl[j] == if j == i then x else was.cl[j]
  }

  // With the link up and the index inside the variable's table, a write sets that entry in both
  // copies, to 16 bits of the clamped value in the register tables and 8 in the bit tables, and
  // queues one packet; otherwise it does nothing.
  lemma WriteStores(m: Image, v: ManageVar)
    requires ImageShape(m) && AddrOk(m.link)
    ensures var (m', p) := Wrote(m, v);
      if !m.link.up then m' == m && p == None
      else match v.kind
        case ClustReg => if v.index < 64
          then
            m' == m.(clustRegs := m'.clustRegs) && EntrySet(m.clustRegs, m'.clustRegs, v.index, Clamped(v) % 65536)
            && p.Some?
          else m' == m && p == None
        case NetReg => if v.index < 16
          then
            m' == m.(netRegs := m'.netRegs) && EntrySet(m.netRegs, m'.netRegs, v.index, Clamped(v) % 65536)
            && p.Some?
          else m' == m && p == None
        case ClustBit => if v.index < 224
          then
            m' == m.(clustBits := m'.clustBits) && EntrySet(m.clustBits, m'.clustBits, v.index, Clamped(v) % 256)
            && p.Some?
          else m' == m && p == None
        case NetBit => if v.index < 16
          then
            m' == m.(netBits := m'.netBits) && EntrySet(m.netBits, m'.netBits, v.index, Clamped(v) % 256)
            && p.Some?
          else m' == m && p == None
        case OtherVar => m' == m && p == None
  {
    hide Clamped, BitPacket, RegPacket;
  }

  // An identifier of 11 bits: bit 10, the service, the node and the cluster.
  ghost predicate SentBy(p: Packet, service: nat, node: byte, cluster: byte) {
    p.id / 1024 == 1 && p.id % 8 == service && p.id / 8 % 16 == node && p.id / 128 % 8 == cluster
  }

  // Who each frame comes from: cluster bits speak for the controller, everything else for the
  // display, node 2; the heartbeat is service 1, the others are service 7.
  lemma SendersAre(m: Image, num: u16, reg: u16, netReg: u16, value: byte, state: byte, fault: byte, mask: byte)
    requires ImageShape(m) && AddrOk(m.link) && reg < 64 && netReg < 16
    ensures var l, c := m.link, m.link.clusterAddr;
      && SentBy(ClustBitPacket(l, num, value), 7, l.plcAddr, c) && SentBy(NetBitPacket(l, num, value), 7, 2, c)
      && SentBy(ClustRegPacket(m, reg), 7, 2, c) && SentBy(NetRegPacket(m, netReg), 7, 2, c)
      && SentBy(HeartbeatPacket(l, value), 1, 2, c) && SentBy(DigitsPacket(l, state, fault, mask), 7, 2, c)
    ensures HeartbeatPacket(m.link, value).data == [0x49, value]
    ensures DigitsPacket(m.link, state, fault, mask).data == [1, 1, state, fault, mask]
  {
    IdIs(7, m.link.plcAddr, m.link.clusterAddr);
    IdIs(7, 2, m.link.clusterAddr);
    IdIs(1, 2, m.link.clusterAddr);
    hide FrameId;
  }

  lemma IdIs(service: nat, node: byte, cluster: byte)
    requires service < 8 && node < 16 && cluster < 8
    ensures var id := FrameId(service, node, cluster);
      id / 1024 == 1 && id % 8 == service && id / 8 % 16 == node && id / 128 % 8 == cluster
  {
  }

  // Mirror --------------------------------------------------------------------------------

  // The display's tables equal the cluster's copies; inputs and outputs show ON exactly when
  // the cluster's state says so.
  ghost predicate Mirror(m: Image) {
    && ImageShape(m) && AddrOk(m.link)
    && m.clustBits.plc == m.clustBits.cl && m.clustRegs.plc == m.clustRegs.cl
    && m.netBits.plc == m.netBits.cl && m.netRegs.plc == m.netRegs.cl
    && (forall j :: 0 <= j < DI_CNT ==> (m.din[j].level == On <==> m.din[j].state == 1))
    && (forall j :: 0 <= j < DO_CNT ==> (m.dout[j].level == On ==> m.dout[j].state == 1 && m.dout[j].fault == 0))
    && (forall j :: 0 <= j < DO_CNT ==> (m.dout[j].state == 1 && m.dout[j].fault == 0 ==> m.dout[j].level == On))
  }

  datatype Event = Received(f: Frame) | Write(v: ManageVar) | ResetAll

  predicate EventOk(e: Event) {
    e.Received? ==> WellFormed(e.f)
  }

  function After(m: Image, e: Event): Image
    requires ImageShape(m) && AddrOk(m.link) && EventOk(e)
  {
    match e
    case Received(f) => Decoded(m, f)
    case Write(v) => Wrote(m, v).0
    case ResetAll => Reset(m)
  }

  lemma DecodeKeepsMirror(m: Image, f: Frame)
    requires Mirror(m) && WellFormed(f)
    ensures Mirror(Decoded(m, f))
  {
    hide Bit, MaskBit, AinsDecoded, AinsConfigured, WordAt, NetIndex, LinksDecoded;
  }

  lemma WriteKeepsMirror(m: Image, v: ManageVar)
    requires Mirror(m)
    ensures Mirror(Wrote(m, v).0)
  {
  }

  lemma ResetGivesMirror(m: Image)
    requires ImageShape(m) && AddrOk(m.link)
    ensures Mirror(Reset(m)) && Mirror(Initialised(m))
  {
  }

  ghost predicate Leads(m: Image, events: seq<Event>, m': Image)
    decreases events
  {
    if events == [] then m' == m
    else ImageShape(m) && AddrOk(m.link) && EventOk(events[0]) && Leads(After(m, events[0]), events[1..], m')
  }

  // After init_plc_data, every run of well-formed frames, local writes and resets keeps the mirror.
  lemma {:induction false} MirrorHolds(m: Image, events: seq<Event>, m': Image)
    requires Mirror(m) && Leads(m, events, m')
    ensures Mirror(m')
    decreases events
  {
    hide Mirror, Decoded, Wrote, Reset;
    if events == [] {
    } else {
      match events[0] {
        case Received(f) => DecodeKeepsMirror(m, f);
        case Write(v) => WriteKeepsMirror(m, v);
        case ResetAll => ResetGivesMirror(m);
      }
      MirrorHolds(After(m, events[0]), events[1..], m');
    }
  }

  lemma MirrorFromInit(m: Image, events: seq<Event>, m': Image)
    requires ImageShape(m) && AddrOk(m.link) && Leads(Initialised(m), events, m')
    ensures Mirror(m')
  {
    ResetGivesMirror(m);
    MirrorHolds(Initialised(m), events, m');
  }
}
