// What each received frame does, in its bytes and the entries it names (check_can_rx_data in
// user/can.c), and what the resets of user/plc_data.c leave.
module PlcFrames {
  import opened Bytes
  import opened PlcImage

  // Bit i of a byte, by its weight.
  predicate Has(x: byte, i: nat) {
    i < 8 &&
    x / (if i == 0 then 1 else if i == 1 then 2 else if i == 2 then 4 else if i == 3 then 8
         else if i == 4 then 16 else if i == 5 then 32 else if i == 6 then 64 else 128) % 2 == 1
  }

  lemma HasIsBit(x: byte)
    ensures forall i :: 0 <= i < 8 ==> (Has(x, i) <==> Bit(x, i))
  {
    forall i | 0 <= i < 8 ensures Has(x, i) <==> Bit(x, i) {
      assert BitMask(i) == [1, 2, 4, 8, 16, 32, 64, 128][i];
    }
  }

  // Two bytes, low byte first.
  function Pair(lo: byte, hi: byte): u16 {
    var h: int := hi;
    256 * h + lo
  }

  // A frame of the object the low five bits of its first byte name; service 0 is ignored and
  // service 1 is the heartbeat.
  predicate Carries(f: Frame, obj: nat) {
    |f.data| == 8 && f.id % 8 > 1 && f.data[0] % 32 == obj
  }

  // Object 1: packed inputs, counted from 1, and packed outputs, counted from 129. Bit i of the
  // mask names entry start + i; its fault bit goes before its state bit.
  lemma PackedInputs(m: Image, f: Frame, j: nat)
    requires ImageShape(m) && WellFormed(f) && Carries(f, 1) && j < 14
    ensures Decoded(m, f) == m.(din := Decoded(m, f).din, dout := Decoded(m, f).dout)
    ensures |Decoded(m, f).din| == 14
    ensures var d, i, now := f.data, j + 1 - f.data[1], Decoded(m, f).din[j];
      if 0 <= i < 8 && Has(d[4], i) then
        && now.inUse && now.used == 1
        && (if Has(d[3], i) then now.level == Fault && now.state == 0 && now.fault == 1
            else if Has(d[2], i) then now.level == On && now.state == 1 && now.fault == 0
            else now.level == Off && now.state == 0 && now.fault == 0)
      else now == m.din[j]
  {
    hide Bit, Has;
    HasIsBit(f.data[2]);
    HasIsBit(f.data[3]);
    HasIsBit(f.data[4]);
  }

  lemma PackedOutputs(m: Image, f: Frame, j: nat)
    requires ImageShape(m) && WellFormed(f) && Carries(f, 1) && j < 6
    ensures |Decoded(m, f).dout| == 6
    ensures var d, i, now := f.data, j + 129 - f.data[1], Decoded(m, f).dout[j];
      if 0 <= i < 8 && Has(d[4], i) then
        if Has(d[3], i) then now.level == Fault && now.fault == 1 && now.state == m.dout[j].state
        else if Has(d[2], i) then now.level == On && now.state == 1 && now.fault == 0
        else now.level == Off && now.state == 0 && now.fault == 0
      else now == m.dout[j]
  {
    hide Bit, Has;
    HasIsBit(f.data[2]);
    HasIsBit(f.data[3]);
    HasIsBit(f.data[4]);
  }

  // Packed bits from entry `base` on: bit i of the mask names entry base + i.
  ghost predicate BitsSet(was: seq<u16>, now: seq<u16>, base: int, state: byte, mask: byte) {
    && |now| == |was|
    && forall j :: 0 <= j < |now| ==>
      now[j] == if 0 <= j - base < 8 && Has(mask, j - base) then (if Has(state, j - base) then 1 else 0) else was[j]
  }

  lemma DecodedBitsAreSet(s: seq<u16>, base: int, state: byte, mask: byte)
    ensures BitsSet(s, BitsDecoded(s, base, state, mask), base, state, mask)
  {
    hide Bit, Has;
    HasIsBit(state);
    HasIsBit(mask);
  }

  // Object 3: cluster bits from entry byte 1 - 16 on, in both copies.
  lemma ClusterBits(m: Image, f: Frame)
    requires ImageShape(m) && WellFormed(f) && Carries(f, 3)
    ensures Decoded(m, f) == m.(clustBits := Decoded(m, f).clustBits)
    ensures BitsSet(m.clustBits.plc, Decoded(m, f).clustBits.plc, f.data[1] - 16, f.data[2], f.data[3])
    ensures BitsSet(m.clustBits.cl, Decoded(m, f).clustBits.cl, f.data[1] - 16, f.data[2], f.data[3])
  {
    hide BitsSet, BitsDecoded;
    DecodedBitsAreSet(m.clustBits.plc, f.data[1] - 16, f.data[2], f.data[3]);
    DecodedBitsAreSet(m.clustBits.cl, f.data[1] - 16, f.data[2], f.data[3]);
  }

  // Object 14: network bits from the entry byte 1 names in the cluster's block of 16, modulo 256.
  lemma NetworkBits(m: Image, f: Frame)
    requires ImageShape(m) && WellFormed(f) && Carries(f, 14)
    ensures Decoded(m, f) == m.(netBits := Decoded(m, f).netBits)
    ensures var base := (f.data[1] - 16 * (f.id / 128 % 8) - 1) % 256;
      && BitsSet(m.netBits.plc, Decoded(m, f).netBits.plc, base, f.data[2], f.data[3])
      && BitsSet(m.netBits.cl, Decoded(m, f).netBits.cl, base, f.data[2], f.data[3])
  {
    hide BitsSet, BitsDecoded;
    var base := (f.data[1] - 16 * (f.id / 128 % 8) - 1) % 256;
    DecodedBitsAreSet(m.netBits.plc, base, f.data[2], f.data[3]);
    DecodedBitsAreSet(m.netBits.cl, base, f.data[2], f.data[3]);
  }

  // Entry i becomes the word in bytes 2 and 3, low byte first; an index past the table changes nothing.
  ghost predicate RegSet(was: seq<u16>, now: seq<u16>, i: int, data: seq<byte>)
    requires |data| == 8
  {
    |now| == |was| && forall j :: 0 <= j < |now| ==> now[j] == if j == i then Pair(data[2], data[3]) else was[j]
  }

  // Object 6: cluster register byte 1 - 17.
  lemma ClusterRegister(m: Image, f: Frame)
    requires ImageShape(m) && WellFormed(f) && Carries(f, 6)
    ensures Decoded(m, f) == m.(clustRegs := Decoded(m, f).clustRegs)
    ensures RegSet(m.clustRegs.plc, Decoded(m, f).clustRegs.plc, f.data[1] - 17, f.data)
    ensures RegSet(m.clustRegs.cl, Decoded(m, f).clustRegs.cl, f.data[1] - 17, f.data)
  {
  }

  // Object 15: the network register byte 1 names in the cluster's block of 16, modulo 256.
  lemma NetworkRegister(m: Image, f: Frame)
    requires ImageShape(m) && WellFormed(f) && Carries(f, 15)
    ensures Decoded(m, f) == m.(netRegs := Decoded(m, f).netRegs)
    ensures var i := (f.data[1] - 16 * (f.id / 128 % 8) - 1) % 256;
      && RegSet(m.netRegs.plc, Decoded(m, f).netRegs.plc, i, f.data)
      && RegSet(m.netRegs.cl, Decoded(m, f).netRegs.cl, i, f.data)
  {
  }

  // Object 5: analog input byte 1, from 1 to 14: value, tdu, fault and raw value; the display's
  // raw value follows, and the trends get the value. Any other number changes nothing.
  lemma AnalogInput(m: Image, f: Frame, j: nat)
    requires ImageShape(m) && WellFormed(f) && Carries(f, 5) && j < 14
    ensures Decoded(m, f) == m.(ain := Decoded(m, f).ain) && |Decoded(m, f).ain| == 14
    ensures var d, was, now := f.data, m.ain[j], Decoded(m, f).ain[j];
      if j + 1 == d[1] then
        && now.value == d[2] && now.tdu == d[3] && now.fault == Pair(d[4], d[5])
        && now.raw == Pair(d[6], d[7]) == now.plcRaw
        && now.kind == was.kind && now.used == was.used
      else now == was
    ensures Sampled(f) ==
      if 1 <= f.data[1] <= 14 then Some(Sample(f.id / 8 % 16, f.data[1], f.data[2])) else None
  {
  }

  lemma NothingElseIsSampled(f: Frame)
    requires |f.data| == 8 && !Carries(f, 5)
    ensures Sampled(f) == None
  {
  }

  // Bit j of the mask in bytes 2 and 3, low byte first.
  predicate Names(f: Frame, j: nat)
    requires |f.data| == 8
  {
    if j < 8 then Has(f.data[2], j) else Has(f.data[3], j - 8)
  }

  lemma NamesIsMaskBit(f: Frame, j: nat)
    requires |f.data| == 8 && j < 14
    ensures Names(f, j) <==> MaskBit(Word(f.data), j)
  {
    HasIsBit(f.data[2]);
    HasIsBit(f.data[3]);
    var hi: int := f.data[3];
    assert (256 * hi + f.data[2]) % 256 == f.data[2] && (256 * hi + f.data[2]) / 256 == hi;
    hide Bit, Has;
  }

  // Object 10 with byte 4 one: the digital inputs in use are those the mask names.
  lemma DigitalTypes(m: Image, f: Frame, j: nat)
    requires ImageShape(m) && WellFormed(f) && Carries(f, 10) && f.data[4] == 1 && j < 14
    ensures Decoded(m, f) == m.(din := Decoded(m, f).din) && |Decoded(m, f).din| == 14
    ensures Decoded(m, f).din[j] ==
      m.din[j].(inUse := Names(f, j), used := if Names(f, j) then 1 else 0)
  {
    NamesIsMaskBit(f, j);
    hide MaskBit, Names, Word;
  }

  // With byte 4 zero: the analog inputs the mask names are in use as voltage inputs; for the others
  // it is the digital type that is cleared, and the analog type stays.
  lemma AnalogTypes(m: Image, f: Frame, j: nat)
    requires ImageShape(m) && WellFormed(f) && Carries(f, 10) && f.data[4] == 0 && j < 14
    ensures Decoded(m, f) == m.(din := Decoded(m, f).din, ain := Decoded(m, f).ain)
    ensures |Decoded(m, f).din| == 14 == |Decoded(m, f).ain|
    ensures Decoded(m, f).ain[j] ==
      if Names(f, j) then m.ain[j].(kind := AiVoltage, used := 1) else m.ain[j].(used := 0)
    ensures Decoded(m, f).din[j] == if Names(f, j) then m.din[j] else m.din[j].(inUse := false)
  {
    NamesIsMaskBit(f, j);
    hide MaskBit, Names, Word;
  }

  // Object 31: application id under number 3, IP state under number 17.
  lemma DeviceState(m: Image, f: Frame)
    requires ImageShape(m) && WellFormed(f) && Carries(f, 31)
    ensures Decoded(m, f) ==
      if f.data[1] == 3 then m.(link := m.link.(appId := Pair(f.data[2], f.data[3])))
      else if f.data[1] == 17 then m.(link := m.link.(ethIp := f.data[2]))
      else m
  {
  }

  // The heartbeat: the link is up with the sender's addresses and the value of byte 1, the silence
  // counter restarts, names are asked for if the link was up and inputs are forced if it was down;
  // nodes 0 to 7 of cluster 0 enter the link table.
  lemma Heartbeat(m: Image, f: Frame)
    requires ImageShape(m) && WellFormed(f) && f.id % 8 == 1
    ensures Decoded(m, f) == m.(link := Decoded(m, f).link)
    ensures var was, now, node, cluster := m.link, Decoded(m, f).link, f.id / 8 % 16, f.id / 128 % 8;
      && now.up && now.plcAddr == node && now.clusterAddr == cluster && now.heartbeat == f.data[1] && now.silent == 0
      && now.askNames == (was.askNames || was.up) && now.forceInputs == (was.forceInputs || !was.up)
      && now.appId == was.appId && now.ethIp == was.ethIp && |now.plcLinks| == 8
      && forall k :: 0 <= k < 8 ==> now.plcLinks[k] == if cluster == 0 && k == node then 1 else was.plcLinks[k]
  {
  }

  // Service 0, objects without a meaning, and type masks of another kind change nothing.
  lemma OtherFrames(m: Image, f: Frame)
    requires ImageShape(m) && WellFormed(f)
    requires f.id % 8 == 0 || (f.id % 8 > 1 && (f.data[0] % 32 !in {1, 3, 5, 6, 10, 14, 15, 31} ||
      (f.data[0] % 32 == 10 && f.data[4] > 1)))
    ensures Decoded(m, f) == m
  {
  }

  // A reset: inputs and outputs off with faults, use and types kept; raw and value of the analog
  // inputs 0; every table 0.
  lemma ResetIs(m: Image)
    requires ImageShape(m)
    ensures ImageShape(Reset(m)) && Reset(m).link == m.link
    ensures forall j :: 0 <= j < 14 ==> Reset(m).din[j] == m.din[j].(level := Off, state := 0)
    ensures forall j :: 0 <= j < 6 ==> Reset(m).dout[j] == m.dout[j].(level := Off, state := 0)
    ensures forall j :: 0 <= j < 14 ==> Reset(m).ain[j] == m.ain[j].(plcRaw := 0, value := 0)
    ensures forall j :: 0 <= j < 224 ==> Reset(m).clustBits.plc[j] == 0 == Reset(m).clustBits.cl[j]
    ensures forall j :: 0 <= j < 64 ==> Reset(m).clustRegs.plc[j] == 0 == Reset(m).clustRegs.cl[j]
    ensures forall j :: 0 <= j < 16 ==> Reset(m).netBits.plc[j] == 0 == Reset(m).netBits.cl[j]
    ensures forall j :: 0 <= j < 16 ==> Reset(m).netRegs.plc[j] == 0 == Reset(m).netRegs.cl[j]
    ensures Initialised(m) == Reset(m).(din := Initialised(m).din) && |Initialised(m).din| == 14
    ensures forall j :: 0 <= j < 14 ==> Initialised(m).din[j] == Reset(m).din[j].(inUse := false)
  {
  }
}
