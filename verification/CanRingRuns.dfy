// Whole runs of the transmit ring: sequential runs with overflow, and the byte-by-byte
// interleaving of one producer with one consumer (user/can_tx_stack.c).
module CanRingRuns {
  import opened Bytes
  import opened CanRing
  import RingIndex

  // Sequential runs, overflow included ------------------------------------------------------

  datatype Call = Put(p: Packet) | Take

  // The ring with, per slot, the number of the add that filled it; all packets accepted so far,
  // and the deliveries with the number each came from.
  datatype Traced = Traced(r: Ring, stamps: seq<nat>, accepted: seq<Packet>, delivered: seq<Packet>, from: seq<nat>)

  predicate Traceable(t: Traced) {
    ValidRing(t.r) && |t.stamps| == |t.r.slots|
  }

  ghost function Do(t: Traced, call: Call): (t': Traced)
    requires Traceable(t)
    ensures Traceable(t')
  {
    match call
    case Put(p) =>
      if |p.data| > DATA_SIZE then t
      else t.(r := Added(t.r, p), stamps := t.stamps[t.r.wr := |t.accepted|], accepted := t.accepted + [p])
    case Take =>
      if Taken(t.r).1.None? then t
      else t.(r := Taken(t.r).0, delivered := t.delivered + [Taken(t.r).1.value], from := t.from + [t.stamps[t.r.rd]])
  }

  ghost predicate Genuine(t: Traced) {
    && ValidRing(t.r) && |t.stamps| == |t.r.slots| && |t.from| == |t.delivered|
    && (forall k :: 0 <= k < |t.stamps| && t.r.slots[k].state == Ready ==>
        t.stamps[k] < |t.accepted| && PacketIn(t.r.slots[k]) == t.accepted[t.stamps[k]] && t.stamps[k] !in t.from)
    && (forall j, k :: 0 <= j < k < |t.stamps| && t.r.slots[j].state == Ready && t.r.slots[k].state == Ready ==>
        t.stamps[j] != t.stamps[k])
    && (forall i :: 0 <= i < |t.from| ==> t.from[i] < |t.accepted| && t.delivered[i] == t.accepted[t.from[i]])
    && (forall i, j :: 0 <= i < j < |t.from| ==> t.from[i] != t.from[j])
  }

  lemma PutStaysGenuine(t: Traced, p: Packet)
    requires Genuine(t) && |p.data| <= DATA_SIZE
    ensures Genuine(Do(t, Put(p)))
  {
    assert PacketIn(Filled(t.r.slots[t.r.wr], p)) == p;
    assert forall i :: 0 <= i < |t.from| ==> t.from[i] != |t.accepted|;
  }

  lemma TakeStaysGenuine(t: Traced)
    requires Genuine(t)
    ensures Genuine(Do(t, Take))
  {
    if Taken(t.r).1.Some? {
      var t' := Do(t, Take);
      assert t'.r.slots[t.r.rd].state == Empty;
      assert forall k :: 0 <= k < |t.stamps| && t.r.slots[k].state == Ready && k != t.r.rd ==>
        t.stamps[k] != t.stamps[t.r.rd];
    }
  }

  ghost function DoAll(t: Traced, calls: seq<Call>): (t': Traced)
    requires Traceable(t)
    ensures Traceable(t')
    decreases calls
  {
    if calls == [] then t else DoAll(Do(t, calls[0]), calls[1..])
  }

  lemma {:induction false} RunStaysGenuine(t: Traced, calls: seq<Call>)
    requires Traceable(t) && Genuine(t)
    ensures Genuine(DoAll(t, calls))
    decreases calls
  {
    hide Genuine;
    if calls == [] {
    } else {
      CallStaysGenuine(t, calls[0]);
      RunStaysGenuine(Do(t, calls[0]), calls[1..]);
    }
  }

  lemma CallStaysGenuine(t: Traced, call: Call)
    requires Genuine(t)
    ensures Genuine(Do(t, call))
  {
    match call
    case Put(p) =>
      if |p.data| <= DATA_SIZE {
        PutStaysGenuine(t, p);
      }
    case Take => TakeStaysGenuine(t);
  }

  function EmptyRing(n: nat): Ring
    requires 0 < n
  {
    Ring(seq(n, _ => Slot(Empty, 0, 0, Fill(DATA_SIZE, 0))), 0, 0)
  }

  ghost function Start(n: nat): Traced
    requires 0 < n
  {
    Traced(EmptyRing(n), seq(n, _ => 0), [], [], [])
  }

  lemma StartIsGenuine(n: nat)
    requires 0 < n
    ensures Genuine(Start(n))
  {
  }

  // However the ring overflows, positions stay in range and every delivery is one accepted
  // packet, none of them twice.
  lemma NothingTwiceNothingInvented(n: nat, calls: seq<Call>)
    requires 0 < n
    ensures var t := DoAll(Start(n), calls);
      && t.r.rd < |t.r.slots| && t.r.wr < |t.r.slots|
      && |t.from| == |t.delivered|
      && (forall i :: 0 <= i < |t.from| ==> t.from[i] < |t.accepted| && t.delivered[i] == t.accepted[t.from[i]])
      && (forall i, j :: 0 <= i < j < |t.from| ==> t.from[i] != t.from[j])
  {
    StartIsGenuine(n);
    RunStaysGenuine(Start(n), calls);
  }

  // One producer and one consumer, step by step ------------------------------------------------

  // Where the producer is in add_tx_can_packet, and the consumer in get_tx_can_packet.
  datatype Producer =
    | Resting
    | Copying(p: Packet, i: nat)  // slot marked busy, i bytes copied
    | IdWritten(p: Packet)
    | LengthWritten(p: Packet)
    | Published  // slot marked ready, write position not yet advanced

  datatype Consumer =
    | Waiting
    | Seen  // the slot was found ready
    | IdRead(id: u32)
    | Reading(id: u32, length: nat, data: seq<byte>)
    | Released  // slot marked empty, read position not yet advanced

  datatype System = System(slots: seq<Slot>, rd: nat, wr: nat, prod: Producer, cons: Consumer,
                           sent: seq<Packet>, got: seq<Packet>)

  datatype Move = Begin(p: Packet) | Produce | Consume

  // A new add may begin while fewer than all slots are outstanding.
  predicate Enabled(s: System, m: Move) {
    m.Begin? ==> s.prod.Resting? && |m.p.data| <= DATA_SIZE && |s.sent| < |s.got| + |s.slots|
  }

  ghost predicate Shaped(s: System) {
    && 0 < |s.slots| && s.rd < |s.slots| && s.wr < |s.slots|
    && forall k :: 0 <= k < |s.slots| ==> s.slots[k].length <= |s.slots[k].data| == DATA_SIZE
  }

  function WithSlot(s: System, k: nat, x: Slot): System
    requires k < |s.slots|
  {
    s.(slots := s.slots[k := x])
  }

  function ProducerMove(s: System): System
    requires s.wr < |s.slots| && |s.slots[s.wr].data| == DATA_SIZE
    requires s.prod.Copying? ==> s.prod.i <= |s.prod.p.data| <= DATA_SIZE
  {
    var x := s.slots[s.wr];
    match s.prod
    case Resting => s
    case Copying(p, i) =>
      if i < |p.data| then WithSlot(s, s.wr, x.(data := x.data[i := p.data[i]])).(prod := Copying(p, i + 1))
      else WithSlot(s, s.wr, x.(id := p.id)).(prod := IdWritten(p))
    case IdWritten(p) => WithSlot(s, s.wr, x.(length := |p.data|)).(prod := LengthWritten(p))
    case LengthWritten(p) => WithSlot(s, s.wr, x.(state := Ready)).(prod := Published, sent := s.sent + [p])
    case Published => s.(wr := RingIndex.Next(|s.slots|, s.wr), prod := Resting)
  }

  function ConsumerMove(s: System): System
    requires s.rd < |s.slots|
    requires s.cons.Reading? ==> |s.cons.data| <= s.cons.length <= |s.slots[s.rd].data|
  {
    var x := s.slots[s.rd];
    match s.cons
    case Waiting => if x.state == Ready then s.(cons := Seen) else s
    case Seen => s.(cons := IdRead(x.id))
    case IdRead(id) => s.(cons := Reading(id, x.length, []))
    case Reading(id, length, data) =>
      if |data| < length then s.(cons := Reading(id, length, data + [x.data[|data|]]))
      else WithSlot(s, s.rd, x.(state := Empty)).(cons := Released, got := s.got + [Packet(id, data)])
    case Released => s.(rd := RingIndex.Next(|s.slots|, s.rd), cons := Waiting)
  }

  // What the producer has put into its slot so far.
  ghost predicate ProducerOk(s: System)
    requires Shaped(s)
  {
    var n, x := |s.slots|, s.slots[s.wr];
    match s.prod
    case Resting => s.wr == RingIndex.At(n, |s.sent|)
    case Published => |s.sent| > 0 && s.wr == RingIndex.At(n, |s.sent| - 1)
    case Copying(p, i) =>
      && s.wr == RingIndex.At(n, |s.sent|) && |s.sent| < |s.got| + n && x.state == Busy
      && i <= |p.data| <= DATA_SIZE && x.data[..i] == p.data[..i]
    case IdWritten(p) =>
      && s.wr == RingIndex.At(n, |s.sent|) && |s.sent| < |s.got| + n && x.state == Busy
      && |p.data| <= DATA_SIZE && x.data[..|p.data|] == p.data && x.id == p.id
    case LengthWritten(p) =>
      && s.wr == RingIndex.At(n, |s.sent|) && |s.sent| < |s.got| + n && x.state == Busy
      && |p.data| <= DATA_SIZE && x.length == |p.data| && PacketIn(x) == p
  }

  // What the consumer has read so far is the front of the oldest outstanding packet.
  ghost predicate ConsumerOk(s: System)
    requires Shaped(s)
  {
    var n := |s.slots|;
    match s.cons
    case Waiting => s.rd == RingIndex.At(n, |s.got|)
    case Released => |s.got| > 0 && s.rd == RingIndex.At(n, |s.got| - 1)
    case Seen => s.rd == RingIndex.At(n, |s.got|) && |s.got| < |s.sent|
    case IdRead(id) => s.rd == RingIndex.At(n, |s.got|) && |s.got| < |s.sent| && id == s.sent[|s.got|].id
    case Reading(id, length, data) =>
      && s.rd == RingIndex.At(n, |s.got|) && |s.got| < |s.sent|
      && id == s.sent[|s.got|].id && length == |s.sent[|s.got|].data|
      && |data| <= length && data == s.sent[|s.got|].data[..|data|]
  }

  ghost predicate Outstanding(s: System)
    requires Shaped(s)
  {
    var n := |s.slots|;
    && |s.got| <= |s.sent| <= |s.got| + n
    && s.got == s.sent[..|s.got|]
    && (forall k :: |s.got| <= k < |s.sent| ==>
        s.slots[RingIndex.At(n, k)].state == Ready && PacketIn(s.slots[RingIndex.At(n, k)]) == s.sent[k])
    && (forall k :: |s.sent| <= k < |s.got| + n ==> s.slots[RingIndex.At(n, k)].state != Ready)
  }

  ghost predicate SystemInv(s: System) {
    Shaped(s) && Outstanding(s) && ProducerOk(s) && ConsumerOk(s)
  }

  lemma BeginKeeps(s: System, p: Packet)
    requires SystemInv(s) && Enabled(s, Begin(p))
    ensures SystemInv(Began(s, p))
  {
    OthersElsewhere(s, |s.sent|);
  }

  function Began(s: System, p: Packet): System
    requires s.wr < |s.slots|
  {
    WithSlot(s, s.wr, s.slots[s.wr].(state := Busy)).(prod := Copying(p, 0))
  }

  // Within one round from got on, position k is met only at k.
  lemma OthersElsewhere(s: System, k: nat)
    requires Shaped(s) && |s.got| <= k < |s.got| + |s.slots|
    ensures forall j :: |s.got| <= j < |s.got| + |s.slots| && j != k ==>
      RingIndex.At(|s.slots|, j) != RingIndex.At(|s.slots|, k)
  {
    forall j | |s.got| <= j < |s.got| + |s.slots| && j != k
      ensures RingIndex.At(|s.slots|, j) != RingIndex.At(|s.slots|, k)
    {
      if j < k {
        RingIndex.Distinct(|s.slots|, j, k);
      } else {
        RingIndex.Distinct(|s.slots|, k, j);
      }
    }
  }

  // A change of the slot at `sent` that keeps it unready leaves the outstanding slots alone.
  lemma WriteBeyond(s: System, x: Slot)
    requires Shaped(s) && Outstanding(s) && |s.sent| < |s.got| + |s.slots| && s.wr == RingIndex.At(|s.slots|, |s.sent|)
    requires x.state != Ready && x.length <= |x.data| == DATA_SIZE
    ensures Shaped(WithSlot(s, s.wr, x)) && Outstanding(WithSlot(s, s.wr, x))
  {
    OthersElsewhere(s, |s.sent|);
  }

  // A producer step touches only the slot at `sent`, which is not outstanding.
  lemma ProduceKeeps(s: System)
    requires SystemInv(s)
    ensures SystemInv(ProducerMove(s))
  {
    match s.prod
    case Resting =>
    case Published =>
    case Copying(p, i) =>
      if i < |p.data| {
        CopyOneMore(s.slots[s.wr].data, p.data, i);
      }
      FillKeeps(s);
    case IdWritten(p) => FillKeeps(s);
    case LengthWritten(p) => PublishKeeps(s);
  }

  lemma FillKeeps(s: System)
    requires SystemInv(s) && (s.prod.Copying? || s.prod.IdWritten?)
    requires s.prod.Copying? && s.prod.i < |s.prod.p.data| ==>
      s.slots[s.wr].data[s.prod.i := s.prod.p.data[s.prod.i]][..s.prod.i + 1] == s.prod.p.data[..s.prod.i + 1]
    ensures SystemInv(ProducerMove(s))
  {
    hide Outstanding;
    var s' := ProducerMove(s);
    WriteBeyond(s, s'.slots[s.wr]);
    OutstandingFrame(WithSlot(s, s.wr, s'.slots[s.wr]), s');
  }

  // Only slots, sent and got matter to what is outstanding.
  lemma OutstandingFrame(s: System, s': System)
    requires Shaped(s) && s'.slots == s.slots && s'.sent == s.sent && s'.got == s.got && s'.rd == s.rd && s'.wr == s.wr
    ensures Shaped(s') && Outstanding(s') == Outstanding(s)
  {
  }

  lemma PublishKeeps(s: System)
    requires SystemInv(s) && s.prod.LengthWritten?
    ensures SystemInv(ProducerMove(s))
  {
    OthersElsewhere(s, |s.sent|);
    var s' := ProducerMove(s);
    assert PacketIn(s'.slots[s.wr]) == s.prod.p;
    assert s'.got == s'.sent[..|s'.got|];
    assert Outstanding(s');
    hide Outstanding;
  }

  lemma CopyOneMore(x: seq<byte>, p: seq<byte>, i: nat)
    requires i < |p| <= |x| && x[..i] == p[..i]
    ensures x[i := p[i]][..i + 1] == p[..i + 1]
  {
    assert x[i := p[i]][..i + 1] == x[..i] + [p[i]];
  }

  // A consumer step reads the oldest outstanding slot, or frees it.
  lemma ConsumeKeeps(s: System)
    requires SystemInv(s)
    ensures SystemInv(ConsumerMove(s))
  {
    hide RingIndex.At;
    var n, s' := |s.slots|, ConsumerMove(s);
    match s.cons
    case Waiting =>
    case Seen =>
    case IdRead(_) =>
    case Released => RingIndex.AtNext(n, |s.got| - 1);
    case Reading(id, length, data) =>
      var x, p := s.slots[s.rd], s.sent[|s.got|];
      assert PacketIn(x) == p;
      if |data| < length {
        assert x.data[|data|] == p.data[|data|];
      } else {
        assert data == p.data;
        FreeKeeps(s);
      }
  }

  // Freeing the oldest slot: the position joins the free end of the ring.
  lemma FreeKeeps(s: System)
    requires SystemInv(s) && s.cons.Reading? && |s.cons.data| == s.cons.length
    ensures SystemInv(ConsumerMove(s))
  {
    assert s.cons.data == s.sent[|s.got|].data && Packet(s.cons.id, s.cons.data) == s.sent[|s.got|];
    FreedOutstanding(s);
    FreedProducer(s);
    hide Outstanding, ProducerOk;
  }

  lemma FreedOutstanding(s: System)
    requires Shaped(s) && Outstanding(s) && |s.got| < |s.sent| && s.rd == RingIndex.At(|s.slots|, |s.got|)
    requires s.cons.Reading? && |s.cons.data| == s.cons.length <= DATA_SIZE
    requires Packet(s.cons.id, s.cons.data) == s.sent[|s.got|]
    ensures Shaped(ConsumerMove(s)) && Outstanding(ConsumerMove(s))
  {
    hide RingIndex.At, RingIndex.Next;
    var s' := ConsumerMove(s);
    OthersElsewhere(s, |s.got|);
    RingIndex.Ahead(|s.slots|, |s.got|, |s.slots|);
    assert s'.got == s.sent[..|s'.got|];
  }

  lemma FreedProducer(s: System)
    requires SystemInv(s) && s.cons.Reading? && |s.cons.data| == s.cons.length
    ensures ProducerOk(ConsumerMove(s))
  {
    hide Outstanding;
    if !s.prod.Resting? && !s.prod.Published? {
      assert |s.got| < |s.sent| < |s.got| + |s.slots|;
      RingIndex.Distinct(|s.slots|, |s.got|, |s.sent|);
    }
  }

  // Would the next array accesses of producer and consumer be in range?
  ghost predicate InRange(s: System) {
    && Shaped(s)
    && (s.prod.Copying? ==> s.prod.i <= |s.prod.p.data| <= DATA_SIZE)
    && (s.cons.Reading? ==> |s.cons.data| <= s.cons.length <= DATA_SIZE)
  }

  // One move; an access out of range ends the run without a state.
  ghost function Moved(s: System, m: Move): Option<System> {
    if !InRange(s) then None
    else match m
      case Begin(p) => Some(Began(s, p))
      case Produce => Some(ProducerMove(s))
      case Consume => Some(ConsumerMove(s))
  }

  ghost predicate Reaches(s: System, moves: seq<Move>, r: Option<System>)
    decreases moves
  {
    if moves == [] then r == Some(s)
    else
      && Enabled(s, moves[0])
      && match Moved(s, moves[0])
         case None => r == None
         case Some(s') => Reaches(s', moves[1..], r)
  }

  lemma InvIsInRange(s: System)
    requires SystemInv(s)
    ensures InRange(s)
  {
    if s.cons.Reading? {
      var n := |s.slots|;
      assert PacketIn(s.slots[RingIndex.At(n, |s.got|)]) == s.sent[|s.got|];
    }
  }

  lemma MoveKeeps(s: System, m: Move)
    requires SystemInv(s) && Enabled(s, m)
    ensures Moved(s, m).Some? && SystemInv(Moved(s, m).value)
  {
    hide Outstanding, ProducerOk, ConsumerOk;
    InvIsInRange(s);
    match m
    case Begin(p) => BeginKeeps(s, p);
    case Produce => ProduceKeeps(s);
    case Consume => ConsumeKeeps(s);
  }

  lemma {:induction false} RunKeeps(s: System, moves: seq<Move>, r: Option<System>)
    requires SystemInv(s) && Reaches(s, moves, r)
    ensures r.Some? && SystemInv(r.value)
    decreases moves
  {
    hide SystemInv, Moved;
    if moves == [] {
      assert r == Some(s);
    } else {
      MoveKeeps(s, moves[0]);
      RunKeeps(Moved(s, moves[0]).value, moves[1..], r);
    }
  }

  ghost function Initial(n: nat): System
    requires 0 < n
  {
    System(EmptyRing(n).slots, 0, 0, Resting, Waiting, [], [])
  }

  // No interleaving with at most n packets outstanding ever accesses a slot or byte out of range.
  lemma NoMoveFaults(n: nat, moves: seq<Move>, r: Option<System>)
    requires 0 < n && Reaches(Initial(n), moves, r)
    ensures r.Some? && InRange(r.value)
  {
    assert SystemInv(Initial(n));
    RunKeeps(Initial(n), moves, r);
    InvIsInRange(r.value);
  }

  // In every interleaving with at most n packets outstanding, the packets handed out are a
  // prefix of the packets published: each once, in order, and complete.
  lemma InterleavedFifo(n: nat, moves: seq<Move>, r: Option<System>)
    requires 0 < n && Reaches(Initial(n), moves, r)
    ensures r.Some? && SystemInv(r.value)
    ensures |r.value.got| <= |r.value.sent| && r.value.got == r.value.sent[..|r.value.got|]
  {
    assert SystemInv(Initial(n));
    RunKeeps(Initial(n), moves, r);
  }
}
