// The CAN transmit ring (user/can_tx_stack.c) and the mailbox pump (user/can.c).
module CanRing {
  import opened Bytes
  import RingIndex

  const DATA_SIZE: nat := 8

  datatype Packet = Packet(id: u32, data: seq<byte>)

  datatype SlotState = Empty | Busy | Ready

  datatype Slot = Slot(state: SlotState, id: u32, length: nat, data: seq<byte>)

  datatype Ring = Ring(slots: seq<Slot>, rd: nat, wr: nat)

  predicate ValidRing(r: Ring) {
    && 0 < |r.slots| && r.rd < |r.slots| && r.wr < |r.slots|
    && forall k :: 0 <= k < |r.slots| ==> r.slots[k].length <= |r.slots[k].data| == DATA_SIZE
  }

  // A packet laid into a slot leaves the bytes behind its length alone.
  function Filled(s: Slot, p: Packet): Slot
    requires |p.data| <= DATA_SIZE == |s.data|
  {
    Slot(Ready, p.id, |p.data|, p.data + s.data[|p.data|..])
  }

  function PacketIn(s: Slot): Packet
    requires s.length <= |s.data|
  {
    Packet(s.id, s.data[..s.length])
  }

  // add_tx_can_packet: oversized packets are dropped; a full ring is not noticed.
  function Added(r: Ring, p: Packet): Ring
    requires ValidRing(r)
  {
    if |p.data| > DATA_SIZE then r
    else Ring(r.slots[r.wr := Filled(r.slots[r.wr], p)], r.rd, RingIndex.Next(|r.slots|, r.wr))
  }

  // get_tx_can_packet
  function Taken(r: Ring): (Ring, Option<Packet>)
    requires ValidRing(r)
  {
    var s := r.slots[r.rd];
    if s.state != Ready then (r, None)
    else (Ring(r.slots[r.rd := s.(state := Empty)], RingIndex.Next(|r.slots|, r.rd), r.wr), Some(PacketIn(s)))
  }

  class TxStack {
    const slots: array<Slot>
    var readPosition: nat
    var writePosition: nat

    ghost predicate Valid()
      reads this, slots
    {
      ValidRing(View())
    }

    function View(): Ring
      reads this, slots
    {
      Ring(slots[..], readPosition, writePosition)
    }

    // init_can_tx_stack
    constructor (n: nat)
      requires 0 < n
      ensures Valid() && fresh(slots) && slots.Length == n
      ensures readPosition == 0 == writePosition && forall k :: 0 <= k < n ==> slots[k].state == Empty
    {
      slots := new Slot[n](_ => Slot(Empty, 0, 0, Fill(DATA_SIZE, 0)));
      readPosition, writePosition := 0, 0;
    }

    method Add(p: Packet)
      requires Valid()
      modifies this`writePosition, slots
      ensures Valid() && View() == Added(old(View()), p)
    {
      var pos := writePosition;
      if |p.data| > DATA_SIZE {
        return;
      }
      slots[pos] := slots[pos].(state := Busy);
      CopyData(pos, p.data);
      slots[pos] := slots[pos].(id := p.id);
      slots[pos] := slots[pos].(length := |p.data|);
      slots[pos] := slots[pos].(state := Ready);
      pos := pos + 1;
      if pos >= slots.Length {
        pos := 0;
      }
      writePosition := pos;
    }

    // The byte loop of add_tx_can_packet.
    method CopyData(pos: nat, data: seq<byte>)
      requires pos < slots.Length && |data| <= |slots[pos].data|
      modifies slots
      ensures slots[..] == old(slots[..])[pos := old(slots[pos]).(data := data + old(slots[pos]).data[|data|..])]
    {
      ghost var was := slots[pos];
      assert was.data == data[..0] + was.data[0..];
      for i := 0 to |data|
        invariant slots[..] == old(slots[..])[pos := was.(data := data[..i] + was.data[i..])]
      {
        Splice(data, was.data, i);
        slots[pos] := slots[pos].(data := slots[pos].data[i := data[i]]);
      }
      assert data[..|data|] == data;
    }

    method Get() returns (p: Option<Packet>)
      requires Valid()
      modifies this`readPosition, slots
      ensures Valid() && View() == Taken(old(View())).0 && p == Taken(old(View())).1
    {
      var pos := readPosition;
      var s := slots[pos];
      if s.state != Ready {
        return None;
      }
      var data: seq<byte> := [];
      for i := 0 to s.length
        invariant data == s.data[..i]
      {
        data := data + [s.data[i]];
      }
      p := Some(Packet(s.id, data));
      slots[pos] := s.(state := Empty);
      pos := pos + 1;
      if pos >= slots.Length {
        pos := 0;
      }
      readPosition := pos;
    }

    // can_write_from_stack. `free` gives the mailbox level seen at each test; it reads as 0
    // when exhausted. `sent` is what goes to the mailboxes.
    method Pump(txTimer: nat, free: seq<nat>) returns (sent: seq<Packet>, txTimer': nat)
      requires Valid()
      modifies this`readPosition, slots
      ensures Valid()
      ensures (View(), sent) == if txTimer < TX_GAP then (old(View()), []) else Pumped(old(View()), free, 0)
      ensures txTimer' == if sent == [] then txTimer else 0
      ensures (txTimer < 5 ==> sent == []) && |sent| <= 9
    {
      hide Pumped, Taken, ValidRing;
      sent, txTimer' := [], txTimer;
      if txTimer < TX_GAP {
        return;
      }
      ghost var start := View();
      var try := 0;
      assert [] + Pumped(start, free, 0).1 == Pumped(start, free, 0).1;
      while FreeLevel(free, try) != 0
        invariant 0 <= try < TRY_LIMIT && Valid()
        invariant Pumped(start, free, 0) == (Pumped(View(), free, try).0, sent + Pumped(View(), free, try).1)
        invariant txTimer' == (if sent == [] then txTimer else 0) && |sent| == try
        decreases TRY_LIMIT - try
      {
        PumpedUnfolds(View(), free, try);
        assert sent + [] == sent;
        if try + 1 >= TRY_LIMIT {
          return;
        }
        ghost var before := View();
        var packet := Get();
        if packet.None? {
          assert View() == before by { TakenNone(before); }
          return;
        }
        assert sent + ([packet.value] + Pumped(View(), free, try + 1).1) ==
          sent + [packet.value] + Pumped(View(), free, try + 1).1;
        try := try + 1;
        txTimer' := 0;
        sent := sent + [packet.value];
      }
      PumpedUnfolds(View(), free, try);
      assert sent + [] == sent;
    }
  }

  lemma Splice(a: seq<byte>, b: seq<byte>, i: nat)
    requires i < |a| <= |b|
    ensures (a[..i] + b[i..])[i := a[i]] == a[..i + 1] + b[i + 1..]
  {
  }

  const TX_GAP: nat := 5
  const TRY_LIMIT: nat := 10

  function FreeLevel(free: seq<nat>, i: nat): nat {
    if i < |free| then free[i] else 0
  }

  // The pump from its i-th test on: the ring left, and the packets handed to mailboxes.
  function Pumped(r: Ring, free: seq<nat>, i: nat): (Ring, seq<Packet>)
    requires ValidRing(r)
    decreases TRY_LIMIT - i
  {
    if FreeLevel(free, i) == 0 || i + 1 >= TRY_LIMIT || Taken(r).1.None? then (r, [])
    else
      var rest := Pumped(Taken(r).0, free, i + 1);
      (rest.0, [Taken(r).1.value] + rest.1)
  }

  lemma PumpedUnfolds(r: Ring, free: seq<nat>, i: nat)
    requires ValidRing(r)
    ensures Pumped(r, free, i) ==
      if FreeLevel(free, i) == 0 || i + 1 >= TRY_LIMIT || Taken(r).1.None? then (r, [])
      else
        var rest := Pumped(Taken(r).0, free, i + 1);
        (rest.0, [Taken(r).1.value] + rest.1)
  {
  }

  lemma TakenNone(r: Ring)
    requires ValidRing(r)
    ensures Taken(r).1.None? ==> Taken(r).0 == r
  {
  }

  // First in, first out -----------------------------------------------------------------

  function Pos(r: Ring, i: nat): nat
    requires ValidRing(r) && i <= |r.slots|
  {
    if r.rd + i < |r.slots| then r.rd + i else r.rd + i - |r.slots|
  }

  // The ring holds exactly the queue q.
  ghost predicate Holds(r: Ring, q: seq<Packet>) {
    && ValidRing(r) && |q| <= |r.slots|
    && r.wr == (if |q| == |r.slots| then r.rd else Pos(r, |q|))
    && (forall i :: 0 <= i < |q| ==> r.slots[Pos(r, i)].state == Ready && PacketIn(r.slots[Pos(r, i)]) == q[i])
    && (forall i :: |q| <= i < |r.slots| ==> r.slots[Pos(r, i)].state != Ready)
  }

  lemma AddEnqueues(r: Ring, q: seq<Packet>, p: Packet)
    requires Holds(r, q) && |q| < |r.slots| && |p.data| <= DATA_SIZE
    ensures Holds(Added(r, p), q + [p])
  {
    var r' := Added(r, p);
    assert r.wr == Pos(r, |q|);
    assert forall i :: 0 <= i <= |r.slots| ==> Pos(r', i) == Pos(r, i);
    assert PacketIn(Filled(r.slots[r.wr], p)) == p;
    assert forall i :: 0 <= i < |r.slots| && i != |q| ==> Pos(r, i) != r.wr;
  }

  lemma TakeDequeues(r: Ring, q: seq<Packet>)
    requires Holds(r, q)
    ensures q == [] ==> Taken(r) == (r, None)
    ensures q != [] ==> Taken(r).1 == Some(q[0]) && Holds(Taken(r).0, q[1..])
  {
    assert Pos(r, 0) == r.rd;
    if q != [] {
      var r' := Taken(r).0;
      forall i | 0 <= i < |r.slots| - 1 ensures Pos(r', i) == Pos(r, i + 1) {
      }
      assert Pos(r', |r.slots| - 1) == r.rd;
    }
  }

  // With a packet waiting, the next one out is still the oldest exactly when the add found room
  // (or repeated the oldest packet): a full ring hands out its newest packet first.
  lemma FifoIffRoom(r: Ring, q: seq<Packet>, p: Packet)
    requires Holds(r, q) && q != [] && |p.data| <= DATA_SIZE
    ensures Taken(Added(r, p)).1 == Some(q[0]) <==> |q| < |r.slots| || p == q[0]
  {
    if |q| < |r.slots| {
      AddEnqueues(r, q, p);
      TakeDequeues(Added(r, p), q + [p]);
    } else {
      assert PacketIn(Filled(r.slots[r.wr], p)) == p;
    }
  }

  // Leading tests that see a free mailbox, at most 9 of them.
  function Grants(free: seq<nat>, i: nat): (n: nat)
    ensures i < TRY_LIMIT ==> n <= TRY_LIMIT - 1 - i
    decreases TRY_LIMIT - i
  {
    if FreeLevel(free, i) == 0 || i + 1 >= TRY_LIMIT then 0 else 1 + Grants(free, i + 1)
  }

  // The pump sends the oldest packets, one per free mailbox seen, at most 9, and keeps the rest.
  lemma {:induction false} PumpSendsOldest(r: Ring, q: seq<Packet>, free: seq<nat>, i: nat)
    requires Holds(r, q)
    ensures var n := if Grants(free, i) < |q| then Grants(free, i) else |q|;
      Pumped(r, free, i).1 == q[..n] && Holds(Pumped(r, free, i).0, q[n..])
    decreases TRY_LIMIT - i
  {
    hide Holds, Taken;
    assert ValidRing(r) by { HoldsIsValid(r, q); }
    TakeDequeues(r, q);
    if Grants(free, i) > 0 && q != [] {
      PumpSendsOldest(Taken(r).0, q[1..], free, i + 1);
      var n := if Grants(free, i) < |q| then Grants(free, i) else |q|;
      assert q[..n] == [q[0]] + q[1..][..n - 1];
      assert q[n..] == q[1..][n - 1..];
    } else {
      assert q[0..] == q;
    }
  }

  lemma HoldsIsValid(r: Ring, q: seq<Packet>)
    requires Holds(r, q)
    ensures ValidRing(r)
  {
  }
}
