// Change reporting of the eight local inputs (update_di_data in user/can_task.c), through the
// transmit ring to a peer that decodes the frames.
module DigitalInputs {
  import opened Bytes
  import opened PlcImage
  import opened CanRing
  import opened CanCmd

  const INPUTS: nat := 8
  const FLUSH_PERIOD: nat := 20

  // Eight input bits; bit i of the C masks is entry i.
  type Bits = s: seq<bool> | |s| == 8 witness [false, false, false, false, false, false, false, false]

  function B(b: bool): nat { if b then 1 else 0 }

  // Inputs i to 7, input i lowest.
  function PackFrom(s: Bits, i: nat): nat
    requires i <= 8
    decreases 8 - i
  {
    if i == 8 then 0 else B(s[i]) + 2 * PackFrom(s, i + 1)
  }

  lemma PackRange(s: Bits)
    ensures PackFrom(s, 0) < 256
  {
    assert PackFrom(s, 8) == 0 && PackFrom(s, 6) < 4;
    assert PackFrom(s, 4) < 16 && PackFrom(s, 2) < 64;
  }

  function Pack(s: Bits): byte {
    PackRange(s);
    PackFrom(s, 0)
  }

  lemma Halved(x: nat, i: nat)
    requires i < 7
    ensures x / BitMask(i) / 2 == x / BitMask(i + 1)
  {
    assert BitMask(i + 1) == 2 * BitMask(i);
    var m, q := BitMask(i), x / BitMask(i);
    assert x == m * q + x % m && 0 <= x % m < m;
    assert m == 1 || m == 2 || m == 4 || m == 8 || m == 16 || m == 32 || m == 64;
  }

  lemma {:induction false} Shifted(s: Bits, i: nat)
    requires i < 8
    ensures Pack(s) / BitMask(i) == PackFrom(s, i)
  {
    if i > 0 {
      Shifted(s, i - 1);
      Halved(Pack(s), i - 1);
      hide BitMask, Pack;
    } else {
      assert BitMask(0) == 1;
    }
  }

  lemma PackedBit(s: Bits, i: nat)
    requires i < 8
    ensures Bit(Pack(s), i) == s[i]
  {
    hide Pack, BitMask;
    Shifted(s, i);
    assert PackFrom(s, i) == B(s[i]) + 2 * PackFrom(s, i + 1);
    hide PackFrom;
  }

  const NONE: Bits := [false, false, false, false, false, false, false, false]
  const ALL: Bits := [true, true, true, true, true, true, true, true]

  // prev_di, update_di and di_tmr.
  datatype Task = Task(prev: Bits, update: Bits, timer: nat)

  function Changed(t: Task, cur: Bits): Bits {
    seq(8, i requires 0 <= i < 8 => t.update[i] || t.prev[i] != cur[i])
  }

  function Masked(mask: Bits, cur: Bits): Bits {
    seq(8, i requires 0 <= i < 8 => mask[i] && cur[i])
  }

  // One call of update_di_data: the new state, and the frame's state and mask if one is sent.
  function Ticked(t: Task, cur: Bits): (Task, Option<(Bits, Bits)>) {
    var update := Changed(t, cur);
    if t.timer + 1 != FLUSH_PERIOD then (Task(cur, update, t.timer + 1), None)
    else if update == NONE then (Task(cur, update, 0), None)
    else (Task(cur, NONE, 0), Some((Masked(update, cur), update)))
  }

  class Reporter {
    var prev: Bits
    var update: Bits
    var timer: nat

    function View(): Task
      reads this
    {
      Task(prev, update, timer)
    }

    constructor ()
      ensures View() == Task(NONE, NONE, 0)
    {
      prev, update, timer := NONE, NONE, 0;
    }

    // A heartbeat that finds the link down marks every input.
    method ForceUpdate()
      modifies this
      ensures View() == old(View()).(update := update)
      ensures forall i :: 0 <= i < 8 ==> update[i]
    {
      update := ALL;
    }

    method UpdateDiData(cur: Bits, l: Link, tx: TxStack)
      requires tx.Valid() && AddrOk(l)
      modifies this, tx, tx.slots
      ensures tx.Valid()
      ensures var (t, frame) := Ticked(old(View()), cur);
        && View() == t
        && tx.View() == if frame.Some?
          then Added(old(tx.View()), DigitsPacket(l, Pack(frame.value.0), 0, Pack(frame.value.1)))
          else old(tx.View())
    {
      for i := 0 to INPUTS
        invariant prev == old(prev) && timer == old(timer) && tx.Valid() && tx.View() == old(tx.View())
        invariant forall j :: 0 <= j < 8 ==> update[j] == if j < i then Changed(old(View()), cur)[j] else old(update)[j]
      {
        if prev[i] != cur[i] {
          update := update[i := true];
        }
      }
      assert update == Changed(old(View()), cur);
      timer := timer + 1;
      if timer == FLUSH_PERIOD {
        if update != NONE {
          var sendState: Bits := NONE;
          for i := 0 to 8
            invariant forall j :: 0 <= j < 8 ==> sendState[j] == (j < i && Masked(update, cur)[j])
          {
            if update[i] && cur[i] {
              sendState := sendState[i := true];
            }
          }
          assert sendState == Masked(update, cur);
          tx.Add(DigitsPacket(l, Pack(sendState), 0, Pack(update)));
          update := NONE;
        }
        timer := 0;
      }
      prev := cur;
    }
  }

  // The system: reporter, ring, peer ------------------------------------------------------------

  // `queue` is what the ring holds, oldest first.
  datatype System = System(task: Task, ring: Ring, queue: seq<Packet>, link: Link, peer: Image)

  // Other traffic of the same sender: variable writes and heartbeats.
  ghost predicate Quiet(p: Packet) {
    && p.id < U16 && 1 <= |p.data| <= DATA_SIZE
    && (Service(p.id) == SRV_HEARTBEAT ||
        (Service(p.id) == 7 && |p.data| == 4 &&
         ((p.data[0] == 0x03 && p.data[1] >= 16) || (p.data[0] == 0x06 && p.data[1] >= 17) ||
          p.data[0] == 0x0E || p.data[0] == 0x0F)))
  }

  ghost predicate Report(p: Packet) {
    p.id < U16 && Service(p.id) == 7 && |p.data| == 5 && p.data[0] == 1 && p.data[1] == 1 && p.data[3] == 0
  }

  // What packet p tells the peer about input i, whose state it held as x.
  ghost function Told(p: Packet, i: nat, x: byte): byte
    requires i < 8
  {
    if Report(p) && Bit(p.data[4], i) then (if Bit(p.data[2], i) then 1 else 0) else x
  }

  ghost function ToldAll(q: seq<Packet>, i: nat, x: byte): byte
    requires i < 8
  {
    if q == [] then x else Told(q[|q| - 1], i, ToldAll(q[..|q| - 1], i, x))
  }

  lemma {:induction false} ToldFirst(q: seq<Packet>, i: nat, x: byte)
    requires i < 8 && q != []
    ensures ToldAll(q, i, x) == ToldAll(q[1..], i, Told(q[0], i, x))
  {
    if |q| > 1 {
      ToldFirst(q[..|q| - 1], i, x);
      assert q[..|q| - 1][1..] == q[1..][..|q| - 2] && q[1..][|q| - 2] == q[|q| - 1];
    } else {
      assert q[..0] == [] && q[1..] == [];
    }
  }

  // Other traffic leaves the peer's inputs alone.
  lemma QuietLeavesInputs(p: Packet, f: Frame, peer: Image)
    requires Quiet(p) && ArrivesAs(p, f) && ImageShape(peer)
    ensures WellFormed(f) && ImageShape(Decoded(peer, f)) && Decoded(peer, f).din == peer.din
  {
    hide Bit, TwinBits, TwinReg, NetIndex, WordAt, LinksDecoded;
    ArrivedBytes(p, f);
  }

  lemma ReportMovesInputs(p: Packet, f: Frame, peer: Image)
    requires Report(p) && ArrivesAs(p, f) && ImageShape(peer)
    ensures WellFormed(f) && ImageShape(Decoded(peer, f))
    ensures Decoded(peer, f).din == DinsDecoded(peer.din, 1, p.data[2], p.data[3], p.data[4])
  {
    hide Bit, DinsDecoded, DoutsDecoded;
    ArrivedBytes(p, f);
  }

  // The decoder moves input i exactly as told.
  lemma PeerDoesAsTold(p: Packet, f: Frame, peer: Image, i: nat)
    requires (Quiet(p) || Report(p)) && ArrivesAs(p, f) && ImageShape(peer) && i < 8
    ensures WellFormed(f) && ImageShape(Decoded(peer, f))
    ensures Decoded(peer, f).din[i].state == Told(p, i, peer.din[i].state)
  {
    assert !Bit(0, i);
    hide Bit, Decoded, WellFormed, ArrivesAs;
    if Report(p) {
      ReportMovesInputs(p, f, peer);
    } else {
      QuietLeavesInputs(p, f, peer);
    }
  }

  // The sender's variable writes and heartbeats are such traffic.
  lemma EntryPacketsAreQuiet(l: Link, eoid: byte, address: int, value: byte, reg: u16, heartbeat: byte)
    requires AddrOk(l) && (eoid == 0x03 || eoid == 0x06 || eoid == 0x0E || eoid == 0x0F)
    requires eoid == 0x03 ==> 16 <= address < 256
    requires eoid == 0x06 ==> 17 <= address < 256
    ensures Quiet(HeartbeatPacket(l, heartbeat))
    ensures eoid != 0x06 && eoid != 0x0F ==>
      Quiet(BitPacket(l.plcAddr, l.clusterAddr, eoid, address, value)) &&
        Quiet(BitPacket(LCD_CAN_ADDR, l.clusterAddr, eoid, address, value))
    ensures eoid == 0x06 || eoid == 0x0F ==> Quiet(RegPacket(l.clusterAddr, eoid, address, reg))
  {
    hide NodeAddr, ClusterAddr, FrameId, Service;
    IdFields(7, LCD_CAN_ADDR, l.clusterAddr);
    IdFields(7, l.plcAddr, l.clusterAddr);
    IdFields(1, LCD_CAN_ADDR, l.clusterAddr);
  }

  lemma WritesAreQuiet(m: Image, v: ManageVar)
    requires ImageShape(m) && AddrOk(m.link)
    ensures Wrote(m, v).1.Some? ==> Quiet(Wrote(m, v).1.value)
  {
    hide Quiet, BitPacket, RegPacket;
    if Sends(m, v) {
      var i, l, m' := v.index, m.link, Stored(m, v);
      match v.kind
      case ClustReg => EntryPacketsAreQuiet(l, 0x06, i + 17, 0, m'.clustRegs.plc[i], 0);
      case NetReg => EntryPacketsAreQuiet(l, 0x0F, l.clusterAddr * 16 + i + 1, 0, m'.netRegs.plc[i], 0);
      case ClustBit => EntryPacketsAreQuiet(l, 0x03, i + 16, Clamped(v) % 256, 0, 0);
      case NetBit => EntryPacketsAreQuiet(l, 0x0E, l.clusterAddr * 16 + i + 1, Clamped(v) % 256, 0, 0);
    }
  }

  // Input i agrees with what the peer will hold when the ring has drained, or is due to be sent.
  ghost predicate Agrees(s: System, i: nat)
    requires i < 8 && ImageShape(s.peer)
  {
    s.task.update[i] || ToldAll(s.queue, i, s.peer.din[i].state) == B(s.task.prev[i])
  }

  ghost predicate Inv(s: System) {
    && Holds(s.ring, s.queue) && ImageShape(s.peer) && AddrOk(s.link) && s.task.timer < FLUSH_PERIOD
    && (forall k :: 0 <= k < |s.queue| ==> Quiet(s.queue[k]) || Report(s.queue[k]))
    && (forall i :: 0 <= i < 8 ==> Agrees(s, i))
  }

  datatype Event =
    | Tick(cur: Bits)  // one pass of the CAN task
    | Force  // a heartbeat arrived while the link was down
    | Other(p: Packet)  // a variable write or heartbeat is queued
    | Deliver(f: Frame)  // the oldest packet reaches the peer

  // No event may overflow the ring; a delivered frame is the oldest packet's.
  ghost predicate Enabled(s: System, e: Event) {
    match e
    case Tick(cur) => Ticked(s.task, cur).1.None? || |s.queue| < |s.ring.slots|
    case Force => true
    case Other(p) => Quiet(p) && |s.queue| < |s.ring.slots|
    case Deliver(f) => s.queue != [] && ArrivesAs(s.queue[0], f)
  }

  function Sent(s: System, p: Packet): System
    requires ValidRing(s.ring)
  {
    s.(ring := Added(s.ring, p), queue := s.queue + [p])
  }

  function ReportPacket(l: Link, frame: (Bits, Bits)): Packet
    requires AddrOk(l)
  {
    DigitsPacket(l, Pack(frame.0), 0, Pack(frame.1))
  }

  ghost function After(s: System, e: Event): System
    requires ValidRing(s.ring) && AddrOk(s.link)
  {
    match e
    case Tick(cur) =>
      var (t, frame) := Ticked(s.task, cur);
      if frame.Some? then Sent(s.(task := t), ReportPacket(s.link, frame.value)) else s.(task := t)
    case Force => s.(task := s.task.(update := ALL))
    case Other(p) => Sent(s, p)
    case Deliver(f) =>
      if s.queue == [] || !WellFormed(f) then s
      else s.(ring := Taken(s.ring).0, queue := s.queue[1..], peer := Decoded(s.peer, f))
  }

  lemma ReportTells(l: Link, update: Bits, cur: Bits, i: nat, x: byte)
    requires AddrOk(l) && i < 8
    ensures var p := ReportPacket(l, (Masked(update, cur), update));
      Report(p) && Told(p, i, x) == if update[i] then B(cur[i]) else x
  {
    hide Bit, Pack;
    IdFields(7, LCD_CAN_ADDR, l.clusterAddr);
    PackedBit(update, i);
    PackedBit(Masked(update, cur), i);
  }

  lemma SentTells(s: System, p: Packet, i: nat, x: byte)
    requires ValidRing(s.ring) && i < 8
    ensures ToldAll(Sent(s, p).queue, i, x) == Told(p, i, ToldAll(s.queue, i, x))
  {
    assert (s.queue + [p])[..|s.queue|] == s.queue;
  }

  lemma SentKeepsQueue(s: System, p: Packet)
    requires Holds(s.ring, s.queue) && |s.queue| < |s.ring.slots| && (Quiet(p) || Report(p))
    requires forall k :: 0 <= k < |s.queue| ==> Quiet(s.queue[k]) || Report(s.queue[k])
    ensures Holds(Sent(s, p).ring, Sent(s, p).queue)
    ensures forall k :: 0 <= k < |Sent(s, p).queue| ==> Quiet(Sent(s, p).queue[k]) || Report(Sent(s, p).queue[k])
  {
    AddEnqueues(s.ring, s.queue, p);
    hide Quiet, Report;
  }

  lemma TickKeeps(s: System, cur: Bits)
    requires Inv(s) && Enabled(s, Tick(cur))
    ensures Inv(After(s, Tick(cur)))
    ensures s.task.timer + 1 == FLUSH_PERIOD ==> After(s, Tick(cur)).task.update == NONE
  {
    hide Holds, Quiet, Report, ToldAll, Told, Pack;
    HoldsIsValid(s.ring, s.queue);
    var (t, frame) := Ticked(s.task, cur);
    if frame.Some? {
      var p := ReportPacket(s.link, frame.value);
      ReportTells(s.link, frame.value.1, cur, 0, 0);
      SentKeepsQueue(s.(task := t), p);
    }
    forall i | 0 <= i < 8 ensures Agrees(After(s, Tick(cur)), i) {
      assert Agrees(s, i);
      if frame.Some? {
        var x := s.peer.din[i].state;
        SentTells(s, ReportPacket(s.link, frame.value), i, x);
        ReportTells(s.link, frame.value.1, cur, i, ToldAll(s.queue, i, x));
      }
    }
  }

  lemma OtherKeeps(s: System, p: Packet)
    requires Inv(s) && Enabled(s, Other(p))
    ensures Inv(After(s, Other(p)))
  {
    hide Holds, ToldAll;
    HoldsIsValid(s.ring, s.queue);
    SentKeepsQueue(s, p);
    forall i | 0 <= i < 8 ensures Agrees(After(s, Other(p)), i) {
      assert Agrees(s, i);
      SentTells(s, p, i, s.peer.din[i].state);
    }
  }

  lemma DeliverKeeps(s: System, f: Frame)
    requires Inv(s) && Enabled(s, Deliver(f))
    ensures Taken(s.ring).1 == Some(s.queue[0]) && WellFormed(f)
    ensures Inv(After(s, Deliver(f)))
  {
    hide Quiet, Report, ToldAll, Told, Decoded, WellFormed;
    HoldsIsValid(s.ring, s.queue);
    TakeDequeues(s.ring, s.queue);
    hide Holds;
    PeerDoesAsTold(s.queue[0], f, s.peer, 0);
    forall i | 0 <= i < 8 ensures Agrees(After(s, Deliver(f)), i) {
      assert Agrees(s, i);
      PeerDoesAsTold(s.queue[0], f, s.peer, i);
      ToldFirst(s.queue, i, s.peer.din[i].state);
    }
  }

  ghost predicate Leads(s: System, events: seq<Event>, s': System)
    decreases events
  {
    if events == [] then s' == s
    else ValidRing(s.ring) && AddrOk(s.link) && Enabled(s, events[0]) && Leads(After(s, events[0]), events[1..], s')
  }

  lemma EventKeeps(s: System, e: Event)
    requires Inv(s) && Enabled(s, e)
    ensures ValidRing(s.ring) && Inv(After(s, e))
  {
    HoldsIsValid(s.ring, s.queue);
    hide Holds;
    match e
    case Tick(cur) => TickKeeps(s, cur);
    case Force =>
    case Other(p) => OtherKeeps(s, p);
    case Deliver(f) => DeliverKeeps(s, f);
  }

  lemma {:induction false} RunKeeps(s: System, events: seq<Event>, s': System)
    requires Inv(s) && Leads(s, events, s')
    ensures Inv(s')
    decreases events
  {
    hide Inv, Enabled;
    if events == [] {
    } else {
      EventKeeps(s, events[0]);
      RunKeeps(After(s, events[0]), events[1..], s');
    }
  }

  lemma TickKeepsPrev(s: System, cur: Bits)
    requires ValidRing(s.ring) && AddrOk(s.link)
    ensures After(s, Tick(cur)).task.prev == cur
  {
  }

  // Everything but the agreement: ring, traffic and timer as they always are.
  ghost predicate Working(s: System) {
    && Holds(s.ring, s.queue) && ImageShape(s.peer) && AddrOk(s.link) && s.task.timer < FLUSH_PERIOD
    && forall k :: 0 <= k < |s.queue| ==> Quiet(s.queue[k]) || Report(s.queue[k])
  }

  // A forced update establishes the invariant whatever the peer holds and the ring carries.
  lemma ForceGivesInv(s: System)
    requires Working(s)
    ensures Inv(After(s, Force))
  {
    HoldsIsValid(s.ring, s.queue);
    hide Holds, Quiet, Report;
  }

  // With an empty ring, each input either matches the peer or is marked.
  lemma StartGivesInv(s: System)
    requires Working(s) && s.queue == []
    requires forall i :: 0 <= i < 8 ==> s.task.update[i] || s.peer.din[i].state == B(s.task.prev[i])
    ensures Inv(s)
  {
    hide Holds, Quiet, Report;
    forall i | 0 <= i < 8 ensures Agrees(s, i) {
      assert ToldAll([], i, s.peer.din[i].state) == s.peer.din[i].state;
    }
  }

  // In every run from such a state, with a peer in any condition, each input either agrees with
  // what the peer holds or will hold once the queued frames arrive, or is due to be sent; after a
  // flush all inputs agree, and with an empty queue the peer shows exactly the inputs.
  lemma InputsConverge(s: System, events: seq<Event>, s': System, cur: Bits, i: nat)
    requires Working(s) && forall j :: 0 <= j < 8 ==> Agrees(s, j)
    requires Leads(s, events, s') && Enabled(s', Tick(cur)) && i < 8
    ensures Inv(s') && Agrees(s', i)
    ensures ValidRing(s'.ring) && ImageShape(After(s', Tick(cur)).peer)
    ensures s'.task.timer + 1 == 20 ==>
      var done := After(s', Tick(cur));
      ToldAll(done.queue, i, done.peer.din[i].state) == B(cur[i]) &&
        (done.queue == [] ==> done.peer.din[i].state == B(cur[i]))
  {
    assert Inv(s);
    hide Holds, Quiet, Report, Told, Pack, Leads, Ticked, Changed, Masked;
    RunKeeps(s, events, s');
    TickKeeps(s', cur);
    HoldsIsValid(s'.ring, s'.queue);
    TickKeepsPrev(s', cur);
    hide Enabled, After;
    assert Agrees(After(s', Tick(cur)), i);
  }
}
