// The UDP flash loader (udp_answer in user/udpecho.c): programming mode and the assembly of
// 4096-byte blocks from four subpackets.
module FlashLoader {
  import opened Bytes

  const BLOCK_SIZE: nat := 4096
  const PACKET_DATA: nat := 1024
  const SUBPACKETS: nat := 4
  const HEADER: nat := 13

  // The assembly buffer, the mode, and the blocks committed to flash so far.
  datatype Loader = Loader(buf: seq<byte>, progMode: bool, commits: seq<Commit>)

  datatype Commit = Commit(addr: u32, block: seq<byte>)

  // A datagram: the bytes readable at the payload pointer, and the length lwIP reports.
  datatype Datagram = Datagram(bytes: seq<byte>, len: nat)

  predicate IsRequest(d: Datagram) {
    4 <= |d.bytes| && d.bytes[0] >= 1 && d.bytes[1] == 'B' as int && d.bytes[2] == 'T' as int && d.bytes[3] == 1
  }

  function Cmd(d: Datagram): u16
    requires 8 <= |d.bytes|
  {
    FromBe16(d.bytes[6..8])
  }

  function Addr(d: Datagram): u32
    requires 12 <= |d.bytes|
  {
    FromBe32(d.bytes[8..12])
  }

  function Sub(d: Datagram): byte
    requires 13 <= |d.bytes|
  {
    d.bytes[12]
  }

  // The byte count of a read command.
  function Count(d: Datagram): u16
    requires 14 <= |d.bytes|
  {
    FromBe16(d.bytes[12..14])
  }

  const GET_NAME: u16 := 0
  const UPDATE_FLASH: u16 := 1
  const READ_FLASH: u16 := 2
  const SET_PROGRAM_MODE: u16 := 3
  const LEAVE_PROGRAM_MODE: u16 := 4

  const DEV_NAME: seq<byte> := [66, 84, 32, 70, 108, 97, 115, 104, 32, 76, 111, 97, 100, 101, 114, 32, 49, 46, 48]
  const REPLY_MAX: nat := 1200

  // Nothing checks that a byte is there before it is read: each byte of the header that the
  // earlier bytes and the command ask for must be.
  predicate Readable(d: Datagram) {
    var b := d.bytes;
    && d.len <= |b| && 1 <= |b|
    && (b[0] >= 1 ==> 2 <= |b| && (b[1] == 'B' as int ==> 3 <= |b| && (b[2] == 'T' as int ==> 4 <= |b|)))
    && (IsRequest(d) ==>
      8 <= |b| && (Cmd(d) == UPDATE_FLASH ==> HEADER <= |b|) && (Cmd(d) == READ_FLASH ==> HEADER < |b|))
  }

  predicate IsCommand(d: Datagram, cmd: u16)
    requires Readable(d)
  {
    IsRequest(d) && Cmd(d) == cmd
  }

  // Is this a subpacket the loader takes?
  predicate Accepts(l: Loader, d: Datagram)
    requires Readable(d)
  {
    && IsCommand(d, UPDATE_FLASH) && l.progMode
    && Addr(d) % BLOCK_SIZE == 0 && Sub(d) < SUBPACKETS && d.len == HEADER + PACKET_DATA
  }

  // Does a read command find its bytes in what the display's memory holds?
  predicate Backed(d: Datagram, ram: seq<byte>)
    requires Readable(d)
  {
    IsCommand(d, READ_FLASH) ==> Count(d) <= |ram|
  }

  function Payload(d: Datagram): (p: seq<byte>)
    requires HEADER + PACKET_DATA == d.len <= |d.bytes|
    ensures |p| == PACKET_DATA
  {
    d.bytes[HEADER..HEADER + PACKET_DATA]
  }

  // The buffer with one quarter replaced; subpacket 0 clears it first.
  function Placed(buf: seq<byte>, j: nat, p: seq<byte>): (r: seq<byte>)
    requires |buf| == BLOCK_SIZE && j < SUBPACKETS && |p| == PACKET_DATA
    ensures |r| == BLOCK_SIZE
  {
    var b := if j == 0 then Fill(BLOCK_SIZE, 0) else buf;
    b[..PACKET_DATA * j] + p + b[PACKET_DATA * j + PACKET_DATA..]
  }

  function Answered(l: Loader, d: Datagram): (l': Loader)
    requires Readable(d) && |l.buf| == BLOCK_SIZE
    ensures |l'.buf| == BLOCK_SIZE
  {
    if !IsRequest(d) then l
    else if Cmd(d) == SET_PROGRAM_MODE then l.(progMode := true)
    else if Cmd(d) == LEAVE_PROGRAM_MODE then l.(progMode := false)
    else if Accepts(l, d) then
      var buf := Placed(l.buf, Sub(d), Payload(d));
      Loader(buf, true, if Sub(d) == SUBPACKETS - 1 then l.commits + [Commit(Addr(d), buf)] else l.commits)
    else l
  }

  // The answer: the request's id and command, then the name, a success byte, or a success byte and
  // what the display's memory holds after the flash read. Empty means none is sent.
  function Reply(l: Loader, d: Datagram, ram: seq<byte>): seq<byte>
    requires Readable(d) && Backed(d, ram)
  {
    if !IsRequest(d) then []
    else
      var head := [1, 'B' as int, 'T' as int, 0] + d.bytes[4..8];
      if Cmd(d) == GET_NAME then head + DEV_NAME
      else if Cmd(d) == READ_FLASH then (if l.progMode then head + [1] + ram[..Count(d)] else [])
      else if Cmd(d) == SET_PROGRAM_MODE || Cmd(d) == LEAVE_PROGRAM_MODE || Accepts(l, d) then head + [1]
      else []
  }

  // Does the answer stay inside its buffer?
  predicate Fits(l: Loader, d: Datagram)
    requires Readable(d)
  {
    IsCommand(d, READ_FLASH) && l.progMode ==> Count(d) <= REPLY_MAX - 9
  }

  class UdpLoader {
    const flBuf: array<byte>
    var progMode: bool
    var commits: seq<Commit>  // what bt816_cmd_memwrite and bt816_cmd_flashupdate put into flash

    ghost predicate Valid()
      reads this
    {
      flBuf.Length == BLOCK_SIZE
    }

    function View(): Loader
      reads this, flBuf
    {
      Loader(flBuf[..], progMode, commits)
    }

    constructor ()
      ensures Valid() && fresh(flBuf) && View() == Loader(Fill(BLOCK_SIZE, 0), false, [])
    {
      flBuf := new byte[BLOCK_SIZE](_ => 0);
      progMode, commits := false, [];
      new;
      assert flBuf[..] == Fill(BLOCK_SIZE, 0);
    }

    // udp_answer; `ram` is what the display's memory holds from address 0 when it is read back.
    // None is an answer that runs past its buffer, which the firmware does not survive.
    method Answer(d: Datagram, ram: seq<byte>) returns (reply: Option<seq<byte>>)
      requires Valid() && Readable(d) && Backed(d, ram)
      modifies this, flBuf
      ensures Valid() && View() == Answered(old(View()), d)
      ensures reply == if Fits(old(View()), d) then Some(Reply(old(View()), d, ram)) else None
    {
      hide FromBe32, FromBe16;
      if !IsRequest(d) {
        return Some([]);
      }
      var head := [1, 'B' as int, 'T' as int, 0] + d.bytes[4..8];
      var res: seq<byte> := [];
      if Cmd(d) == GET_NAME {
        res := head + DEV_NAME;
      } else if Cmd(d) == UPDATE_FLASH {
        if progMode {
          if Addr(d) % BLOCK_SIZE == 0 && Sub(d) < SUBPACKETS && d.len == HEADER + PACKET_DATA {
            Place(Sub(d), Payload(d));
            if Sub(d) == SUBPACKETS - 1 {
              commits := commits + [Commit(Addr(d), flBuf[..])];
            }
            res := head + [1];
          }
        }
      } else if Cmd(d) == READ_FLASH {
        if progMode {
          res := head + [1];
          for i := 0 to Count(d)
            invariant res == head + [1] + ram[..i] && |res| <= REPLY_MAX
          {
            if |res| == REPLY_MAX {
              return None;
            }
            res := res + [ram[i]];
          }
        }
      } else if Cmd(d) == SET_PROGRAM_MODE {
        progMode := true;
        res := head + [1];
      } else if Cmd(d) == LEAVE_PROGRAM_MODE {
        progMode := false;
        res := head + [1];
      }
      reply := Some(res);
    }

    // A panel key enters or leaves programming mode.
    method SwitchMode(on: bool)
      requires Valid()
      modifies this`progMode
      ensures View() == old(View()).(progMode := on)
    {
      progMode := on;
    }

    // The two copy loops of the update command.
    method Place(j: nat, p: seq<byte>)
      requires Valid() && j < SUBPACKETS && |p| == PACKET_DATA
      modifies flBuf
      ensures flBuf[..] == Placed(old(flBuf[..]), j, p)
    {
      if j == 0 {
        for i := 0 to BLOCK_SIZE
          invariant forall k :: 0 <= k < i ==> flBuf[k] == 0
        {
          flBuf[i] := 0;
        }
        assert flBuf[..] == Fill(BLOCK_SIZE, 0);
      }
      ghost var start := flBuf[..];
      var offset := PACKET_DATA * j;
      for i := 0 to PACKET_DATA
        invariant forall k :: offset <= k < offset + i ==> flBuf[k] == p[k - offset]
        invariant forall k :: 0 <= k < offset || offset + i <= k < BLOCK_SIZE ==> flBuf[k] == start[k]
      {
        flBuf[offset + i] := p[i];
      }
      assert flBuf[..] == start[..offset] + p + start[offset + PACKET_DATA..];
    }
  }

  // The answer stays inside its buffer exactly unless it reads back more than 1191 bytes in
  // programming mode.
  lemma AnswerFitsIff(l: Loader, d: Datagram, ram: seq<byte>)
    requires Readable(d) && Backed(d, ram)
    ensures |Reply(l, d, ram)| <= REPLY_MAX <==> Fits(l, d)
  {
    hide FromBe16, FromBe32;
  }

  // The longest answer a 14-byte read command asks for.
  lemma AnswerOverruns(l: Loader, ram: seq<byte>)
    requires l.progMode && |ram| == 65535
    ensures var d := Datagram([1, 'B' as int, 'T' as int, 1, 0, 0, 0, 2, 0, 0, 0, 0, 255, 255], 14);
      Readable(d) && Backed(d, ram) && !Fits(l, d) && |Reply(l, d, ram)| == 65544
  {
    var d := Datagram([1, 'B' as int, 'T' as int, 1, 0, 0, 0, 2, 0, 0, 0, 0, 255, 255], 14);
    assert d.bytes[6..8] == [0, 2] && d.bytes[12..14] == [255, 255];
  }

  // An answer repeats id and command of its request and is itself no request: a loader that
  // receives it does nothing.
  lemma RepliesAreQuiet(l: Loader, d: Datagram, ram: seq<byte>, l': Loader, r: Datagram, ram': seq<byte>)
    requires Readable(d) && Backed(d, ram)
    requires Reply(l, d, ram) != [] && Reply(l, d, ram) <= r.bytes && r.len <= |r.bytes|
    requires |l'.buf| == BLOCK_SIZE
    ensures 8 < |Reply(l, d, ram)| && Reply(l, d, ram)[4..8] == d.bytes[4..8]
    ensures Readable(r) && Backed(r, ram') && Answered(l', r) == l' && Reply(l', r, ram') == []
  {
    hide FromBe16, FromBe32;
    assert r.bytes[3] == Reply(l, d, ram)[3] == 0;
  }

  // What a block is made of ------------------------------------------------------------------

  // An accepted subpacket: its quarter, the address it was sent for, its data.
  datatype Piece = Piece(j: nat, addr: u32, payload: seq<byte>)

  ghost predicate PiecesOk(h: seq<Piece>) {
    forall k :: 0 <= k < |h| ==> h[k].j < SUBPACKETS && |h[k].payload| == PACKET_DATA
  }

  // The last subpacket accepted for quarter j since the last subpacket 0.
  ghost function Source(h: seq<Piece>, j: nat): Option<Piece> {
    if h == [] then None
    else
      var last := h[|h| - 1];
      if last.j == j then Some(last)
      else if last.j == 0 then None
      else Source(h[..|h| - 1], j)
  }

  lemma {:induction false} SourceOk(h: seq<Piece>, j: nat)
    requires PiecesOk(h)
    ensures Source(h, j).Some? ==> Source(h, j).value.j == j && |Source(h, j).value.payload| == PACKET_DATA
  {
    if h == [] {
    } else {
      SourceOk(h[..|h| - 1], j);
    }
  }

  // Its payload, zeros where none came.
  ghost function LastFor(h: seq<Piece>, j: nat): (p: seq<byte>)
    requires PiecesOk(h)
    ensures |p| == PACKET_DATA
  {
    SourceOk(h, j);
    if Source(h, j).Some? then Source(h, j).value.payload else Fill(PACKET_DATA, 0)
  }

  lemma LastAppend(h: seq<Piece>, piece: Piece, j: nat)
    requires PiecesOk(h) && PiecesOk([piece]) && j < SUBPACKETS
    ensures PiecesOk(h + [piece])
    ensures LastFor(h + [piece], j) ==
      if piece.j == j then piece.payload else if piece.j == 0 then Fill(PACKET_DATA, 0) else LastFor(h, j)
  {
    assert [piece][0] == piece && (h + [piece])[..|h|] == h;
  }

  ghost function BlockOf(h: seq<Piece>): seq<byte>
    requires PiecesOk(h)
  {
    LastFor(h, 0) + LastFor(h, 1) + LastFor(h, 2) + LastFor(h, 3)
  }

  // Placing a subpacket in the buffer appends it to the history.
  lemma PlaceAppends(h: seq<Piece>, piece: Piece)
    requires PiecesOk(h) && PiecesOk([piece])
    ensures [piece][0] == piece && PiecesOk(h + [piece])
    ensures Placed(BlockOf(h), piece.j, piece.payload) == BlockOf(h + [piece])
  {
    var j, p := [piece][0].j, [piece][0].payload;
    LastAppend(h, piece, 0);
    LastAppend(h, piece, 1);
    LastAppend(h, piece, 2);
    LastAppend(h, piece, 3);
    PlacedQuarter(LastFor(h, 0), LastFor(h, 1), LastFor(h, 2), LastFor(h, 3), j, p);
    hide LastFor, Placed;
  }

  lemma PlacedQuarter(q0: seq<byte>, q1: seq<byte>, q2: seq<byte>, q3: seq<byte>, j: nat, p: seq<byte>)
    requires |q0| == |q1| == |q2| == |q3| == PACKET_DATA == |p| && j < SUBPACKETS
    ensures var z := Fill(PACKET_DATA, 0);
      Placed(q0 + q1 + q2 + q3, j, p) ==
        if j == 0 then p + z + z + z
        else if j == 1 then q0 + p + q2 + q3
        else if j == 2 then q0 + q1 + p + q3
        else q0 + q1 + q2 + p
  {
    var z := Fill(PACKET_DATA, 0);
    if j == 0 {
      assert Fill(BLOCK_SIZE, 0) == z + z + z + z;
    }
  }

  // Runs -------------------------------------------------------------------------------------

  // A datagram arrives, or a panel key switches the mode.
  datatype Event = Received(d: Datagram) | Panel(on: bool)

  ghost predicate AllReadable(es: seq<Event>) {
    forall k :: 0 <= k < |es| && es[k].Received? ==> Readable(es[k].d)
  }

  predicate Takes(l: Loader, e: Event)
    requires e.Received? ==> Readable(e.d)
  {
    e.Received? && Accepts(l, e.d)
  }

  predicate Overruns(l: Loader, e: Event)
    requires e.Received? ==> Readable(e.d)
  {
    e.Received? && !Fits(l, e.d)
  }

  function After(l: Loader, e: Event): (l': Loader)
    requires |l.buf| == BLOCK_SIZE && (e.Received? ==> Readable(e.d))
    ensures |l'.buf| == BLOCK_SIZE
  {
    match e
    case Received(d) => Answered(l, d)
    case Panel(on) => l.(progMode := on)
  }

  function PieceOf(l: Loader, d: Datagram): (p: Piece)
    requires Readable(d) && Accepts(l, d)
    ensures p.j < SUBPACKETS && |p.payload| == PACKET_DATA
  {
    Piece(Sub(d), Addr(d), Payload(d))
  }

  // Where a run ends: an answer past its buffer ends it early.
  datatype Run = Run(loader: Loader, overrun: bool)

  ghost function AfterAll(l: Loader, es: seq<Event>): (r: Run)
    requires |l.buf| == BLOCK_SIZE && AllReadable(es)
    ensures |r.loader.buf| == BLOCK_SIZE
    decreases es
  {
    if es == [] then Run(l, false)
    else if Overruns(l, es[0]) then Run(l, true)
    else AfterAll(After(l, es[0]), es[1..])
  }

  // The subpackets accepted before the run ends.
  ghost function Accepted(l: Loader, es: seq<Event>): seq<Piece>
    requires |l.buf| == BLOCK_SIZE && AllReadable(es)
    decreases es
  {
    if es == [] || Overruns(l, es[0]) then []
    else (if Takes(l, es[0]) then [PieceOf(l, es[0].d)] else []) + Accepted(After(l, es[0]), es[1..])
  }

  // The commits a run must make: one per accepted subpacket 3, at that subpacket's address, with
  // the block assembled from the history so far.
  ghost function CommitsOf(h: seq<Piece>, more: seq<Piece>): seq<Commit>
    requires PiecesOk(h) && PiecesOk(more)
    decreases more
  {
    if more == [] then []
    else
      var h' := h + [more[0]];
      (if more[0].j == SUBPACKETS - 1 then [Commit(more[0].addr, BlockOf(h'))] else []) + CommitsOf(h', more[1..])
  }

  // A datagram that is not accepted changes neither buffer nor flash.
  lemma RejectedChangesNothing(l: Loader, d: Datagram)
    requires Readable(d) && |l.buf| == BLOCK_SIZE && !Accepts(l, d)
    ensures Answered(l, d).buf == l.buf && Answered(l, d).commits == l.commits
  {
    hide FromBe16, FromBe32;
  }

  lemma AcceptedPlaces(l: Loader, d: Datagram)
    requires Readable(d) && |l.buf| == BLOCK_SIZE && Accepts(l, d)
    ensures var p := PieceOf(l, d);
      && Answered(l, d).buf == Placed(l.buf, p.j, p.payload)
      && Answered(l, d).commits ==
        if p.j == SUBPACKETS - 1 then l.commits + [Commit(p.addr, Answered(l, d).buf)] else l.commits
  {
    hide FromBe16, FromBe32;
  }

  lemma {:induction false} AcceptedOk(l: Loader, es: seq<Event>)
    requires |l.buf| == BLOCK_SIZE && AllReadable(es)
    ensures PiecesOk(Accepted(l, es))
    decreases es
  {
    hide Answered, Payload, Fits, Accepts, Readable;
    if es == [] || Overruns(l, es[0]) {
    } else {
      AcceptedOk(After(l, es[0]), es[1..]);
    }
  }

  // Over any datagrams and mode switches, rejects included, the buffer and every committed block
  // hold, for each quarter, the last payload accepted for it since the last subpacket 0; a block
  // is committed at the address of its subpacket 3. If an answer runs past its buffer, this is so
  // up to there.
  lemma {:induction false} RunAssembles(l: Loader, h: seq<Piece>, es: seq<Event>)
    requires PiecesOk(h) && l.buf == BlockOf(h) && AllReadable(es)
    ensures |l.buf| == BLOCK_SIZE && PiecesOk(Accepted(l, es))
    ensures AfterAll(l, es).loader.buf == BlockOf(h + Accepted(l, es))
    ensures AfterAll(l, es).loader.commits == l.commits + CommitsOf(h, Accepted(l, es))
    decreases es
  {
    hide BlockOf, Answered, Accepts, Readable, Fits, Placed, Payload, CommitsOf, Addr, Sub, Cmd;
    BlockSize(h);
    AcceptedOk(l, es);
    if es == [] || Overruns(l, es[0]) {
      assert h + [] == h && l.commits + CommitsOf(h, []) == l.commits by { NoMoreCommits(h); }
    } else {
      var e, l' := es[0], After(l, es[0]);
      var rest := Accepted(l', es[1..]);
      AcceptedOk(l', es[1..]);
      if Takes(l, e) {
        var piece := PieceOf(l, e.d);
        AcceptedPlaces(l, e.d);
        PlaceAppends(h, piece);
        RunAssembles(l', h + [piece], es[1..]);
        assert Accepted(l, es) == [piece] + rest;
        assert h + Accepted(l, es) == (h + [piece]) + rest;
        OneMoreCommit(l.commits, l'.commits, h, piece, rest);
      } else {
        if e.Received? {
          RejectedChangesNothing(l, e.d);
        }
        RunAssembles(l', h, es[1..]);
        assert Accepted(l, es) == [] + rest == rest;
      }
    }
  }

  // A run ends early exactly when some read command finds programming mode on and asks for more
  // than the answer buffer holds.
  lemma {:induction false} OverrunIff(l: Loader, es: seq<Event>)
    requires |l.buf| == BLOCK_SIZE && AllReadable(es)
    ensures AfterAll(l, es).overrun <==> exists k: nat ::
      && k < |es| && !AfterAll(l, es[..k]).overrun && Overruns(AfterAll(l, es[..k]).loader, es[k])
    decreases es
  {
    hide After, Readable, Fits;
    if es == [] {
    } else if Overruns(l, es[0]) {
      assert es[..0] == [];
    } else {
      var l', rest := After(l, es[0]), es[1..];
      OverrunIff(l', rest);
      assert es[..0] == [] && AfterAll(l, es[..0]) == Run(l, false);
      forall k: nat | 0 < k <= |es| ensures AfterAll(l, es[..k]) == AfterAll(l', rest[..k - 1]) {
        assert es[..k][0] == es[0] && es[..k][1..] == rest[..k - 1];
      }
      if k: nat :| k < |rest| && !AfterAll(l', rest[..k]).overrun && Overruns(AfterAll(l', rest[..k]).loader, rest[k]) {
        assert AfterAll(l, es[..k + 1]) == AfterAll(l', rest[..k]) && es[k + 1] == rest[k];
      }
      if k: nat :| k < |es| && !AfterAll(l, es[..k]).overrun && Overruns(AfterAll(l, es[..k]).loader, es[k]) {
        assert k > 0 && AfterAll(l, es[..k]) == AfterAll(l', rest[..k - 1]) && es[k] == rest[k - 1];
      }
    }
  }

  lemma NoMoreCommits(h: seq<Piece>)
    requires PiecesOk(h)
    ensures CommitsOf(h, []) == []
  {
  }

  lemma OneMoreCommit(commits: seq<Commit>, commits': seq<Commit>, h: seq<Piece>, piece: Piece, rest: seq<Piece>)
    requires PiecesOk(h) && PiecesOk(h + [piece]) && PiecesOk([piece] + rest) && PiecesOk(rest)
    requires commits' ==
      if piece.j == SUBPACKETS - 1 then commits + [Commit(piece.addr, BlockOf(h + [piece]))] else commits
    ensures commits' + CommitsOf(h + [piece], rest) == commits + CommitsOf(h, [piece] + rest)
  {
    hide BlockOf;
    assert ([piece] + rest)[1..] == rest;
  }

  lemma BlockSize(h: seq<Piece>)
    requires PiecesOk(h)
    ensures |BlockOf(h)| == BLOCK_SIZE
  {
  }

  lemma EmptyBlock()
    ensures BlockOf([]) == Fill(BLOCK_SIZE, 0)
  {
    var z := Fill(PACKET_DATA, 0);
    assert Fill(BLOCK_SIZE, 0) == z + z + z + z;
  }

  // From power-on.
  lemma LoaderAssembles(es: seq<Event>)
    requires AllReadable(es)
    ensures var l := Loader(Fill(BLOCK_SIZE, 0), false, []);
      && PiecesOk(Accepted(l, es))
      && AfterAll(l, es).loader.buf == BlockOf(Accepted(l, es))
      && AfterAll(l, es).loader.commits == CommitsOf([], Accepted(l, es))
  {
    EmptyBlock();
    hide BlockOf, AfterAll, CommitsOf, Accepted, AllReadable;
    var l := Loader(Fill(BLOCK_SIZE, 0), false, []);
    RunAssembles(l, [], es);
    assert [] + Accepted(l, es) == Accepted(l, es);
    assert [] + CommitsOf([], Accepted(l, es)) == CommitsOf([], Accepted(l, es));
  }

  // Subpacket 0 first, 3 last, 1 and 2 in either order: the committed block is the image.
  lemma InOrderImage(h: seq<Piece>, a: seq<u32>, p: seq<seq<byte>>, swapped: bool)
    requires PiecesOk(h) && |a| == SUBPACKETS == |p| && forall j :: 0 <= j < SUBPACKETS ==> |p[j]| == PACKET_DATA
    ensures var all := h + InOrder(a, p, swapped);
      PiecesOk(all) && BlockOf(all) == p[0] + p[1] + p[2] + p[3]
  {
    var s := InOrder(a, p, swapped);
    var h1 := h + [s[0]];
    var h2 := h1 + [s[1]];
    var h3 := h2 + [s[2]];
    assert h + s == h3 + [s[3]];
    assert PiecesOk([s[0]]) && PiecesOk([s[1]]) && PiecesOk([s[2]]) && PiecesOk([s[3]]);
    hide LastFor;
    forall j | 0 <= j < SUBPACKETS
      ensures PiecesOk(h + s) && LastFor(h + s, j) == p[j]
    {
      LastAppend(h, s[0], j);
      LastAppend(h1, s[1], j);
      LastAppend(h2, s[2], j);
      LastAppend(h3, s[3], j);
    }
  }

  function InOrder(a: seq<u32>, p: seq<seq<byte>>, swapped: bool): (s: seq<Piece>)
    requires |a| == SUBPACKETS == |p|
    ensures |s| == SUBPACKETS
  {
    var one, two := Piece(1, a[1], p[1]), Piece(2, a[2], p[2]);
    [Piece(0, a[0], p[0])] + (if swapped then [two, one] else [one, two]) + [Piece(3, a[3], p[3])]
  }

  // Addresses --------------------------------------------------------------------------------

  // Is piece i still in the block: no later subpacket of its quarter, and no later subpacket 0?
  ghost predicate InBlock(h: seq<Piece>, i: nat)
    requires i < |h|
  {
    forall k :: i < k < |h| ==> h[k].j != h[i].j && h[k].j != 0
  }

  lemma {:induction false} SourceIs(h: seq<Piece>, j: nat)
    ensures Source(h, j).Some? ==>
      exists i: nat :: i < |h| && InBlock(h, i) && h[i] == Source(h, j).value && h[i].j == j
    ensures forall i: nat :: i < |h| && InBlock(h, i) && h[i].j == j ==> Source(h, j) == Some(h[i])
  {
    if h == [] {
    } else {
      var n := |h| - 1;
      SourceIs(h[..n], j);
      assert InBlock(h, n);
      forall i: nat | i < n ensures InBlock(h, i) <==> InBlock(h[..n], i) && h[n].j != h[i].j && h[n].j != 0 {
      }
    }
  }

  // Does the block hold only payloads sent for address a?
  ghost predicate SentFor(h: seq<Piece>, a: u32) {
    forall j: nat :: j < SUBPACKETS && Source(h, j).Some? ==> Source(h, j).value.addr == a
  }

  // It does exactly when every subpacket not yet superseded carries that address; the loader
  // itself never compares them.
  lemma SentForIff(h: seq<Piece>, a: u32)
    requires PiecesOk(h)
    ensures SentFor(h, a) <==> forall i: nat :: i < |h| && InBlock(h, i) ==> h[i].addr == a
  {
    if SentFor(h, a) {
      forall i: nat | i < |h| && InBlock(h, i) ensures h[i].addr == a {
        SourceIs(h, h[i].j);
      }
    }
    if forall i: nat :: i < |h| && InBlock(h, i) ==> h[i].addr == a {
      forall j: nat | j < SUBPACKETS && Source(h, j).Some? ensures Source(h, j).value.addr == a {
        SourceIs(h, j);
      }
    }
  }

  // How many subpackets 3 are in a history.
  ghost function Ends(h: seq<Piece>): nat {
    if h == [] then 0 else (if h[0].j == SUBPACKETS - 1 then 1 else 0) + Ends(h[1..])
  }

  // Every accepted subpacket 3 makes the commit of its number, at its address, and every commit
  // is one of these.
  lemma {:induction false} CommitAt(h: seq<Piece>, more: seq<Piece>, i: nat)
    requires PiecesOk(h) && PiecesOk(more) && i < |more| && more[i].j == SUBPACKETS - 1
    ensures PiecesOk(h + more[..i + 1])
    ensures |CommitsOf(h, more)| == Ends(more) && Ends(more[..i]) < Ends(more)
    ensures CommitsOf(h, more)[Ends(more[..i])] == Commit(more[i].addr, BlockOf(h + more[..i + 1]))
    decreases i
  {
    hide BlockOf;
    CommitCount(h, more);
    assert more == [more[0]] + more[1..];
    CommitsStep(h, more[0], more[1..]);
    if i == 0 {
      assert more[..1] == [more[0]] && Ends(more[..0]) == 0;
    } else {
      CommitAt(h + [more[0]], more[1..], i - 1);
      assert more[..i + 1] == [more[0]] + more[1..][..i];
      assert h + more[..i + 1] == h + [more[0]] + more[1..][..i];
      assert more[..i][0] == more[0] && more[..i][1..] == more[1..][..i - 1];
    }
  }

  lemma {:induction false} CommitCount(h: seq<Piece>, more: seq<Piece>)
    requires PiecesOk(h) && PiecesOk(more)
    ensures |CommitsOf(h, more)| == Ends(more)
    decreases more
  {
    hide BlockOf;
    if more == [] {
    } else {
      CommitCount(h + [more[0]], more[1..]);
    }
  }

  // A commit holds only payloads sent for its own address exactly when every subpacket since the
  // last subpacket 0 that no later one of its quarter replaced was sent for it.
  lemma CommitIsOwnIff(h: seq<Piece>, more: seq<Piece>, i: nat)
    requires PiecesOk(h) && PiecesOk(more) && i < |more| && more[i].j == SUBPACKETS - 1
    ensures Ends(more[..i]) < |CommitsOf(h, more)| && PiecesOk(h + more[..i + 1])
    ensures var so, c := h + more[..i + 1], CommitsOf(h, more)[Ends(more[..i])];
      && c.block == BlockOf(so)
      && (SentFor(so, c.addr) <==> forall k: nat :: k < |so| && InBlock(so, k) ==> so[k].addr == c.addr)
  {
    hide BlockOf, CommitsOf, SentFor, InBlock, Ends;
    CommitAt(h, more, i);
    SentForIff(h + more[..i + 1], more[i].addr);
  }

  // Quarters 0 to 2 sent for one address and quarter 3 for another: all four are committed there.
  lemma MixedBlockCommits(h: seq<Piece>, a: u32, b: u32, p: seq<seq<byte>>)
    requires PiecesOk(h) && a != b && |p| == SUBPACKETS && forall j :: 0 <= j < SUBPACKETS ==> |p[j]| == PACKET_DATA
    ensures var all := InOrder([a, a, a, b], p, false);
      && PiecesOk(all) && PiecesOk(h + all) && !SentFor(h + all, b)
      && CommitsOf(h, all) == [Commit(b, p[0] + p[1] + p[2] + p[3])]
  {
    var all := InOrder([a, a, a, b], p, false);
    var n := |h|;
    InOrderImage(h, [a, a, a, b], p, false);
    assert (h + all)[n] == all[0] && InBlock(h + all, n);
    SentForIff(h + all, b);
    hide BlockOf, SentFor, CommitsOf, InBlock;
    assert all == [all[0]] + all[1..] && all[1..] == [all[1]] + all[2..] && all[2..] == [all[2]] + all[3..];
    assert all[3..] == [all[3]] + [] && h + [all[0]] + [all[1]] + [all[2]] + [all[3]] == h + all;
    CommitsStep(h, all[0], all[1..]);
    CommitsStep(h + [all[0]], all[1], all[2..]);
    CommitsStep(h + [all[0]] + [all[1]], all[2], all[3..]);
    CommitsStep(h + [all[0]] + [all[1]] + [all[2]], all[3], []);
    NoMoreCommits(h + all);
  }

  lemma CommitsStep(h: seq<Piece>, piece: Piece, rest: seq<Piece>)
    requires PiecesOk(h) && PiecesOk([piece] + rest)
    ensures PiecesOk(h + [piece]) && PiecesOk(rest)
    ensures CommitsOf(h, [piece] + rest) ==
      (if piece.j == SUBPACKETS - 1 then [Commit(piece.addr, BlockOf(h + [piece]))] else []) +
        CommitsOf(h + [piece], rest)
  {
    hide BlockOf;
    assert ([piece] + rest)[0] == piece && ([piece] + rest)[1..] == rest;
    forall k | 0 <= k < |rest| ensures rest[k].j < SUBPACKETS && |rest[k].payload| == PACKET_DATA {
      assert rest[k] == ([piece] + rest)[k + 1];
    }
  }
}
