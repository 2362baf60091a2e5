// The displays' image of the controller and the frame decoder that maintains it
// (check_can_rx_data in user/can.c), with the resets of user/plc_data.c.
module PlcImage {
  import opened Bytes

  const DI_CNT: nat := 14
  const DO_CNT: nat := 6
  const AI_CNT: nat := 14
  const LINKS: nat := 8
  const CLUST_BITS: nat := 224
  const CLUST_REGS: nat := 64
  const NET_BITS: nat := 16
  const NET_REGS: nat := 16

  datatype Level = On | Off | Fault

  // A digital input: the display's level and used flag, and the cluster copy.
  datatype Din = Din(level: Level, inUse: bool, state: byte, fault: byte, used: byte)

  datatype Dout = Dout(level: Level, state: byte, fault: byte)

  datatype AiType = AiUnused | AiVoltage | AiCurrent

  // An analog input: the display's raw value and type, and the cluster copy.
  datatype Ain = Ain(plcRaw: u16, kind: AiType, raw: u16, fault: u16, tdu: byte, value: byte, used: byte)

  // A value for the trends: node, input number, value.
  datatype Sample = Sample(node: byte, input: byte, value: byte)

  // A table kept twice: the plc_ array and the copy in the cluster structure.
  datatype Twin = Twin(plc: seq<u16>, cl: seq<u16>)

  datatype Link = Link(up: bool, plcAddr: byte, clusterAddr: byte, askNames: bool, forceInputs: bool,
                       heartbeat: byte, appId: u16, ethIp: byte, silent: u16, plcLinks: seq<byte>)

  datatype Image = Image(din: seq<Din>, dout: seq<Dout>, ain: seq<Ain>, clustBits: Twin, clustRegs: Twin,
                         netBits: Twin, netRegs: Twin, link: Link)

  // A received frame: identifier and the 8 data bytes of the mailbox.
  datatype Frame = Frame(id: u16, data: seq<byte>)

  predicate TwinShape(t: Twin, n: nat) {
    |t.plc| == n == |t.cl|
  }

  predicate ImageShape(m: Image) {
    && |m.din| == DI_CNT && |m.dout| == DO_CNT && |m.ain| == AI_CNT && |m.link.plcLinks| == LINKS
    && TwinShape(m.clustBits, CLUST_BITS) && TwinShape(m.clustRegs, CLUST_REGS)
    && TwinShape(m.netBits, NET_BITS) && TwinShape(m.netRegs, NET_REGS)
  }

  // Identifier fields: service in bits 0-2, node in bits 3-6, cluster in bits 7-9.
  function Service(id: u16): nat { id % 8 }

  function NodeAddr(id: u16): byte { id / 8 % 16 }

  function ClusterAddr(id: u16): byte { id / 128 % 8 }

  const SRV_CHANNEL: nat := 0
  const SRV_HEARTBEAT: nat := 1

  function Eoid(data: seq<byte>): nat
    requires |data| == 8
  {
    data[0] % 32
  }

  function BitMask(i: nat): nat
    requires i < 8
  {
    [1, 2, 4, 8, 16, 32, 64, 128][i]
  }

  predicate Bit(x: byte, i: nat)
    requires i < 8
  {
    x / BitMask(i) % 2 == 1
  }

  // Frames whose internal address keeps the decoder inside its tables.
  predicate WellFormed(f: Frame) {
    && |f.data| == 8
    && (Service(f.id) > SRV_HEARTBEAT && Eoid(f.data) == 3 ==> f.data[1] >= 16)
    && (Service(f.id) > SRV_HEARTBEAT && Eoid(f.data) == 6 ==> f.data[1] >= 17)
  }

  function DinDecoded(d: Din, state: bool, fault: bool): Din {
    if fault then Din(Fault, true, 0, 1, 1)
    else if state then Din(On, true, 1, 0, 1)
    else Din(Off, true, 0, 0, 1)
  }

  function DoutDecoded(d: Dout, state: bool, fault: bool): Dout {
    if fault then d.(level := Fault, fault := 1)
    else if state then Dout(On, 1, 0)
    else Dout(Off, 0, 0)
  }

  // Packed inputs: bit i speaks of input start + i, counted from 1.
  function DinsDecoded(s: seq<Din>, start: byte, state: byte, fault: byte, mask: byte): (r: seq<Din>)
    ensures |r| == |s|
  {
    seq(|s|, j requires 0 <= j < |s| =>
      var i := j + 1 - start;
      if 0 <= i < 8 && Bit(mask, i) then DinDecoded(s[j], Bit(state, i), Bit(fault, i)) else s[j])
  }

  // Packed outputs: bit i speaks of output start + i, counted from 129.
  function DoutsDecoded(s: seq<Dout>, start: byte, state: byte, fault: byte, mask: byte): (r: seq<Dout>)
    ensures |r| == |s|
  {
    seq(|s|, j requires 0 <= j < |s| =>
      var i := j + 129 - start;
      if 0 <= i < 8 && Bit(mask, i) then DoutDecoded(s[j], Bit(state, i), Bit(fault, i)) else s[j])
  }

  // Packed bits from index `base` on.
  function BitsDecoded(s: seq<u16>, base: int, state: byte, mask: byte): (r: seq<u16>)
    ensures |r| == |s|
  {
    seq(|s|, j requires 0 <= j < |s| =>
      var i := j - base;
      if 0 <= i < 8 && Bit(mask, i) then (if Bit(state, i) then 1 else 0) else s[j])
  }

  function TwinBits(t: Twin, base: int, state: byte, mask: byte): (r: Twin)
    ensures |r.plc| == |t.plc| && |r.cl| == |t.cl|
  {
    Twin(BitsDecoded(t.plc, base, state, mask), BitsDecoded(t.cl, base, state, mask))
  }

  function TwinReg(t: Twin, i: int, v: u16): (r: Twin)
    ensures |r.plc| == |t.plc| && |r.cl| == |t.cl|
  {
    if 0 <= i < |t.plc| && i < |t.cl| then Twin(t.plc[i := v], t.cl[i := v]) else t
  }

  // Register values are little endian on the wire.
  function WordAt(data: seq<byte>, i: nat): u16
    requires |data| == 8 && i < 7
  {
    var hi: int := data[i + 1];
    256 * hi + data[i]
  }

  function Word(data: seq<byte>): u16
    requires |data| == 8
  {
    WordAt(data, 2)
  }

  // Network tables are addressed modulo 256 after the cluster's base is taken off.
  function NetIndex(intern: byte, cluster: byte): byte {
    (intern - cluster * 16 - 1) % 256
  }

  function DinsConfigured(s: seq<Din>, mask: u16, digital: bool): (r: seq<Din>)
    ensures |r| == |s|
  {
    seq(|s|, j requires 0 <= j < |s| =>
      if j >= 16 then s[j]
      else if MaskBit(mask, j) then (if digital then s[j].(inUse := true, used := 1) else s[j])
      else if digital then s[j].(inUse := false, used := 0)
      else s[j].(inUse := false))
  }

  function AinsConfigured(s: seq<Ain>, mask: u16): (r: seq<Ain>)
    ensures |r| == |s|
  {
    seq(|s|, j requires 0 <= j < |s| =>
      if j >= 16 then s[j]
      else if MaskBit(mask, j) then s[j].(kind := AiVoltage, used := 1)
      else s[j].(used := 0))
  }

  // Analog input i of the frame, counted from 1.
  function AinsDecoded(s: seq<Ain>, data: seq<byte>): (r: seq<Ain>)
    requires |data| == 8
    ensures |r| == |s|
  {
    var raw, i := WordAt(data, 6), data[1];
    if 1 <= i <= |s| then
      s[i - 1 := s[i - 1].(plcRaw := raw, raw := raw, fault := WordAt(data, 4), tdu := data[3], value := data[2])]
    else s
  }

  function LinksDecoded(links: seq<byte>, cluster: byte, node: byte): (r: seq<byte>)
    ensures |r| == |links|
  {
    if cluster == 0 && node < |links| then links[node := 1] else links
  }

  predicate MaskBit(mask: u16, j: nat)
    requires j < 16
  {
    if j < 8 then Bit(mask % 256, j) else Bit(mask / 256, j - 8)
  }

  // check_can_rx_data
  function Decoded(m: Image, f: Frame): Image
    requires WellFormed(f)
  {
    var d := f.data;
    if Service(f.id) == SRV_CHANNEL then m
    else if Service(f.id) == SRV_HEARTBEAT then
      m.(link := m.link.(up := true, plcAddr := NodeAddr(f.id), clusterAddr := ClusterAddr(f.id), heartbeat := d[1],
                         askNames := m.link.askNames || m.link.up, forceInputs := m.link.forceInputs || !m.link.up,
                         silent := 0, plcLinks := LinksDecoded(m.link.plcLinks, ClusterAddr(f.id), NodeAddr(f.id))))
    else if Eoid(d) == 0x01 then
      m.(din := DinsDecoded(m.din, d[1], d[2], d[3], d[4]), dout := DoutsDecoded(m.dout, d[1], d[2], d[3], d[4]))
    else if Eoid(d) == 0x03 then m.(clustBits := TwinBits(m.clustBits, d[1] - 16, d[2], d[3]))
    else if Eoid(d) == 0x05 then m.(ain := AinsDecoded(m.ain, d))
    else if Eoid(d) == 0x06 then m.(clustRegs := TwinReg(m.clustRegs, d[1] - 17, Word(d)))
    else if Eoid(d) == 0x0A then
      if d[4] == 0 then m.(din := DinsConfigured(m.din, Word(d), false), ain := AinsConfigured(m.ain, Word(d)))
      else if d[4] == 1 then m.(din := DinsConfigured(m.din, Word(d), true))
      else m
    else if Eoid(d) == 0x0E then
      m.(netBits := TwinBits(m.netBits, NetIndex(d[1], ClusterAddr(f.id)), d[2], d[3]))
    else if Eoid(d) == 0x0F then
      m.(netRegs := TwinReg(m.netRegs, NetIndex(d[1], ClusterAddr(f.id)), Word(d)))
    else if Eoid(d) == 0x1F then
      if d[1] == 3 then m.(link := m.link.(appId := Word(d)))
      else if d[1] == 17 then m.(link := m.link.(ethIp := d[2]))
      else m
    else m
  }

  // What the frame hands to the trends.
  function Sampled(f: Frame): Option<Sample>
    requires |f.data| == 8
  {
    if Service(f.id) > SRV_HEARTBEAT && Eoid(f.data) == 0x05 && 1 <= f.data[1] <= AI_CNT
    then Some(Sample(NodeAddr(f.id), f.data[1], f.data[2]))
    else None
  }

  // reset_plc_data
  function Reset(m: Image): Image {
    m.(din := seq(|m.din|, j requires 0 <= j < |m.din| => m.din[j].(level := Off, state := 0)),
       dout := seq(|m.dout|, j requires 0 <= j < |m.dout| => m.dout[j].(level := Off, state := 0)),
       ain := seq(|m.ain|, j requires 0 <= j < |m.ain| => m.ain[j].(plcRaw := 0, value := 0)),
       clustBits := Zeroed(m.clustBits), clustRegs := Zeroed(m.clustRegs),
       netBits := Zeroed(m.netBits), netRegs := Zeroed(m.netRegs))
  }

  function Zeroed(t: Twin): Twin {
    Twin(seq(|t.plc|, _ => 0), seq(|t.cl|, _ => 0))
  }

  // init_plc_data
  function Initialised(m: Image): Image {
    Reset(m.(din := seq(|m.din|, j requires 0 <= j < |m.din| => m.din[j].(inUse := false))))
  }

  // The display's own state, updated in place.
  class PlcNode {
    var din: seq<Din>
    var dout: seq<Dout>
    var ain: seq<Ain>
    var clustBits: Twin
    var clustRegs: Twin
    var netBits: Twin
    var netRegs: Twin
    var link: Link

    function View(): Image
      reads this
    {
      Image(din, dout, ain, clustBits, clustRegs, netBits, netRegs, link)
    }

    ghost predicate Valid()
      reads this
    {
      ImageShape(View())
    }

    constructor (m: Image)
      requires ImageShape(m)
      ensures Valid() && View() == m
    {
      din, dout, ain, clustBits, clustRegs, netBits, netRegs, link :=
        m.din, m.dout, m.ain, m.clustBits, m.clustRegs, m.netBits, m.netRegs, m.link;
    }

    // Case 0x01 of the decoder.
    method DecodeInputsOutputs(start: byte, state: byte, fault: byte, mask: byte)
      requires Valid()
      modifies this
      ensures View() == old(View()).(din := DinsDecoded(old(din), start, state, fault, mask),
                                     dout := DoutsDecoded(old(dout), start, state, fault, mask))
    {
      hide Bit, BitMask, DinDecoded, DoutDecoded;
      for i := 0 to 8
        invariant View() == old(View()).(din := din, dout := dout) && |din| == DI_CNT && |dout| == DO_CNT
        invariant forall j :: 0 <= j < DI_CNT ==>
          din[j] == if j + 1 - start < i then DinsDecoded(old(din), start, state, fault, mask)[j] else old(din)[j]
        invariant forall j :: 0 <= j < DO_CNT ==>
          dout[j] == if j + 129 - start < i then DoutsDecoded(old(dout), start, state, fault, mask)[j] else old(dout)[j]
      {
        if Bit(mask, i) {
          if 1 <= start + i <= DI_CNT {
            var j := start + i - 1;
            din := din[j := DinDecoded(din[j], Bit(state, i), Bit(fault, i))];
          } else if start + i >= 129 && start + i - 129 < DO_CNT {
            var j := start + i - 129;
            dout := dout[j := DoutDecoded(dout[j], Bit(state, i), Bit(fault, i))];
          }
        }
      }
    }

    // The bit loop of cases 0x03 and 0x0E.
    method DecodeBits(t: Twin, base: nat, state: byte, mask: byte) returns (t': Twin)
      requires |t.plc| == |t.cl|
      ensures t' == TwinBits(t, base, state, mask)
    {
      t' := t;
      for i := 0 to 8
        invariant |t'.plc| == |t.plc| == |t'.cl|
        invariant forall j :: 0 <= j < |t.plc| ==>
          t'.plc[j] == if j - base < i then BitsDecoded(t.plc, base, state, mask)[j] else t.plc[j]
        invariant forall j :: 0 <= j < |t.plc| ==>
          t'.cl[j] == if j - base < i then BitsDecoded(t.cl, base, state, mask)[j] else t.cl[j]
      {
        if base + i < |t.plc| && Bit(mask, i) {
          var v := if Bit(state, i) then 1 else 0;
          t' := Twin(t'.plc[base + i := v], t'.cl[base + i := v]);
        }
      }
    }

    // Case 0x0A for digital inputs.
    method DecodeDigitalTypes(mask: u16)
      requires Valid()
      modifies this`din
      ensures din == DinsConfigured(old(din), mask, true)
    {
      for i := 0 to 16
        invariant |din| == DI_CNT
        invariant forall j :: 0 <= j < DI_CNT ==>
          din[j] == if j < i then DinsConfigured(old(din), mask, true)[j] else old(din)[j]
      {
        if i < DI_CNT {
          if MaskBit(mask, i) {
            din := din[i := din[i].(inUse := true, used := 1)];
          } else {
            din := din[i := din[i].(inUse := false, used := 0)];
          }
        }
      }
    }

    // Case 0x0A for analog inputs: an input not named loses its digital type.
    method DecodeAnalogTypes(mask: u16)
      requires Valid()
      modifies this`din, this`ain
      ensures din == DinsConfigured(old(din), mask, false) && ain == AinsConfigured(old(ain), mask)
    {
      for i := 0 to 16
        invariant |din| == DI_CNT && |ain| == AI_CNT
        invariant forall j :: 0 <= j < DI_CNT ==>
          din[j] == if j < i then DinsConfigured(old(din), mask, false)[j] else old(din)[j]
        invariant forall j :: 0 <= j < AI_CNT ==>
          ain[j] == if j < i then AinsConfigured(old(ain), mask)[j] else old(ain)[j]
      {
        if i < AI_CNT {
          if MaskBit(mask, i) {
            ain := ain[i := ain[i].(kind := AiVoltage, used := 1)];
          } else {
            din := din[i := din[i].(inUse := false)];
            ain := ain[i := ain[i].(used := 0)];
          }
        }
      }
    }

    // check_can_rx_data; `sample` is what it hands to the trends.
    method Receive(f: Frame) returns (sample: Option<Sample>)
      requires Valid() && WellFormed(f)
      modifies this
      ensures Valid() && View() == Decoded(old(View()), f) && sample == Sampled(f)
    {
      hide DinsDecoded, DoutsDecoded, TwinBits, DinsConfigured, AinsConfigured, WordAt;
      sample := None;
      var d := f.data;
      if Service(f.id) == SRV_CHANNEL {
        return;
      }
      if Service(f.id) == SRV_HEARTBEAT {
        link := link.(silent := 0);
        if link.up {
          link := link.(askNames := true);
        } else {
          link := link.(forceInputs := true);
        }
        link := link.(up := true, plcAddr := NodeAddr(f.id), clusterAddr := ClusterAddr(f.id));
        if link.clusterAddr == 0 && link.plcAddr <= 7 {
          link := link.(plcLinks := link.plcLinks[link.plcAddr := 1]);
        }
        link := link.(heartbeat := d[1]);
        return;
      }
      var eoid := Eoid(d);
      if eoid == 0x01 {
        DecodeInputsOutputs(d[1], d[2], d[3], d[4]);
      } else if eoid == 0x03 {
        clustBits := DecodeBits(clustBits, d[1] - 16, d[2], d[3]);
      } else if eoid == 0x05 {
        if 1 <= d[1] <= AI_CNT {
          var i := d[1] - 1;
          ain := ain[i := ain[i].(plcRaw := WordAt(d, 6), raw := WordAt(d, 6), fault := WordAt(d, 4),
                                  tdu := d[3], value := d[2])];
          sample := Some(Sample(NodeAddr(f.id), d[1], ain[i].value));
        }
      } else if eoid == 0x06 {
        if d[1] - 17 < CLUST_REGS {
          clustRegs := Twin(clustRegs.plc[d[1] - 17 := Word(d)], clustRegs.cl[d[1] - 17 := Word(d)]);
        }
      } else if eoid == 0x0A {
        if d[4] == 0 {
          DecodeAnalogTypes(Word(d));
        } else if d[4] == 1 {
          DecodeDigitalTypes(Word(d));
        }
      } else if eoid == 0x0E {
        var index := NetIndex(d[1], ClusterAddr(f.id));
        netBits := DecodeBits(netBits, index, d[2], d[3]);
      } else if eoid == 0x0F {
        var index := NetIndex(d[1], ClusterAddr(f.id));
        if index < NET_REGS {
          netRegs := Twin(netRegs.plc[index := Word(d)], netRegs.cl[index := Word(d)]);
        }
      } else if eoid == 0x1F {
        if d[1] == 3 {
          link := link.(appId := Word(d));
        } else if d[1] == 17 {
          link := link.(ethIp := d[2]);
        }
      }
    }

    // reset_plc_data: one loop per table.
    method ResetData()
      requires Valid()
      modifies this
      ensures Valid() && View() == Reset(old(View()))
    {
      for i := 0 to DI_CNT
        invariant View() == old(View()).(din := din, ain := ain) && |din| == DI_CNT && |ain| == AI_CNT
        invariant forall j :: 0 <= j < DI_CNT ==>
          din[j] == if j < i then old(din)[j].(level := Off, state := 0) else old(din)[j]
        invariant forall j :: 0 <= j < AI_CNT ==>
          ain[j] == if j < i then old(ain)[j].(plcRaw := 0, value := 0) else old(ain)[j]
      {
        din := din[i := din[i].(level := Off, state := 0)];
        ain := ain[i := ain[i].(plcRaw := 0, value := 0)];
      }
      for i := 0 to DO_CNT
        invariant View() ==
          old(View()).(din := Reset(old(View())).din, ain := Reset(old(View())).ain, dout := dout)
        invariant |dout| == DO_CNT
        invariant forall j :: 0 <= j < DO_CNT ==>
          dout[j] == if j < i then old(dout)[j].(level := Off, state := 0) else old(dout)[j]
      {
        dout := dout[i := dout[i].(level := Off, state := 0)];
      }
      clustBits := ZeroTwin(clustBits);
      clustRegs := ZeroTwin(clustRegs);
      netBits := ZeroTwin(netBits);
      netRegs := ZeroTwin(netRegs);
    }

    method ZeroTwin(t: Twin) returns (t': Twin)
      requires |t.plc| == |t.cl|
      ensures t' == Zeroed(t)
    {
      t' := t;
      for i := 0 to |t.plc|
        invariant |t'.plc| == |t.plc| == |t'.cl|
        invariant forall j :: 0 <= j < i ==> t'.plc[j] == 0 && t'.cl[j] == 0
      {
        t' := Twin(t'.plc[i := 0], t'.cl[i := 0]);
      }
    }

    method InitData()
      requires Valid()
      modifies this
      ensures Valid() && View() == Initialised(old(View()))
    {
      for i := 0 to DI_CNT
        invariant View() == old(View()).(din := din) && |din| == DI_CNT
        invariant forall j :: 0 <= j < DI_CNT ==> din[j] == if j < i then old(din)[j].(inUse := false) else old(din)[j]
      {
        din := din[i := din[i].(inUse := false)];
      }
      assert din == old(View()).(din := seq(|old(din)|, j requires 0 <= j < |old(din)| =>
        old(din)[j].(inUse := false))).din;
      ResetData();
    }
  }
}
