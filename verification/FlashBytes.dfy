// The flash loader in terms of datagram bytes (udp_answer in user/udpecho.c): when the block
// changes and how, what switches the mode, and every answer.
module FlashBytes {
  import opened Bytes
  import opened FlashLoader

  // A datagram of the loader's protocol that asks for command hi, lo.
  predicate Asks(b: seq<byte>, hi: byte, lo: byte) {
    8 <= |b| && b[0] >= 1 && b[1] == 66 && b[2] == 84 && b[3] == 1 && b[6] == hi && b[7] == lo
  }

  // The address in bytes 8 to 11, high byte first.
  function Target(b: seq<byte>): int
    requires 12 <= |b|
  {
    16777216 * b[8] as int + 65536 * b[9] as int + 256 * b[10] as int + b[11] as int
  }

  // Bytes 0 to 3 are a request, bytes 6 and 7 the update command, the mode is on, the address a
  // multiple of 4096, byte 12 a quarter, and the length exactly the header and 1024 bytes.
  predicate Updates(on: bool, b: seq<byte>, len: nat) {
    Asks(b, 0, 1) && 13 <= |b| && on && Target(b) % 4096 == 0 && b[12] < 4 && len == 1037
  }

  lemma CommandBytes(d: Datagram, hi: byte, lo: byte)
    requires Readable(d)
    ensures 8 <= |d.bytes| ==> (IsRequest(d) && Cmd(d) == 256 * hi as int + lo as int <==> Asks(d.bytes, hi, lo))
    ensures Asks(d.bytes, hi, lo) ==> IsRequest(d)
  {
    if 8 <= |d.bytes| {
      assert d.bytes[6..8] == [d.bytes[6], d.bytes[7]];
    }
  }

  lemma TargetIsAddr(d: Datagram)
    requires 12 <= |d.bytes|
    ensures Addr(d) == Target(d.bytes)
  {
    assert d.bytes[8..12] == [d.bytes[8], d.bytes[9], d.bytes[10], d.bytes[11]];
  }

  lemma UpdatesAreAccepted(l: Loader, d: Datagram)
    requires Readable(d)
    ensures Accepts(l, d) <==> Updates(l.progMode, d.bytes, d.len)
  {
    CommandBytes(d, 0, 1);
    if Asks(d.bytes, 0, 1) {
      TargetIsAddr(d);
    }
    hide FromBe16, FromBe32, Target;
  }

  // An update puts byte 13 + i of the datagram into cell i of its quarter, for each of the 1024,
  // clears the rest of the block if the quarter is the first, and on the last commits the block at
  // its address. Nothing else changes block or flash.
  lemma UpdatePutsBytes(l: Loader, d: Datagram)
    requires Readable(d) && |l.buf| == 4096
    ensures var l', b := Answered(l, d), d.bytes;
      if Updates(l.progMode, b, d.len) then
        && |b| >= 1037 && |l'.buf| == 4096
        && (forall c :: 0 <= c < 4096 ==>
             var i := c - 1024 * b[12] as int;
             l'.buf[c] == if 0 <= i < 1024 then b[13 + i] else if b[12] == 0 then 0 else l.buf[c])
        && l'.commits == if b[12] == 3 then l.commits + [Commit(Target(b), l'.buf)] else l.commits
      else l'.buf == l.buf && l'.commits == l.commits
  {
    hide FromBe16, FromBe32, Target;
    UpdatesAreAccepted(l, d);
    if Accepts(l, d) {
      TargetIsAddr(d);
      AcceptedPlaces(l, d);
      PlacedBytes(l.buf, d);
    } else {
      RejectedChangesNothing(l, d);
    }
  }

  lemma PlacedBytes(buf: seq<byte>, d: Datagram)
    requires |buf| == 4096 && 1037 == d.len <= |d.bytes| && d.bytes[12] < 4
    ensures var r, b := Placed(buf, Sub(d), Payload(d)), d.bytes;
      forall c :: 0 <= c < 4096 ==>
        var i := c - 1024 * b[12] as int;
        r[c] == if 0 <= i < 1024 then b[13 + i] else if b[12] == 0 then 0 else buf[c]
  {
    var p := Payload(d);
    assert forall i :: 0 <= i < 1024 ==> p[i] == d.bytes[13 + i];
  }

  // Commands 3 and 4 switch the mode on and off; no other datagram touches it.
  lemma ModeBytes(l: Loader, d: Datagram)
    requires Readable(d) && |l.buf| == 4096
    ensures Answered(l, d).progMode ==
      if Asks(d.bytes, 0, 3) then true else if Asks(d.bytes, 0, 4) then false else l.progMode
  {
    CommandBytes(d, 0, 3);
    CommandBytes(d, 0, 4);
    hide FromBe16, FromBe32, Placed, Payload;
  }

  // The last event that switches the mode decides it.
  ghost function LastSwitch(on: bool, es: seq<Event>): bool {
    if es == [] then on
    else match es[|es| - 1]
      case Panel(o) => o
      case Received(d) =>
        if Asks(d.bytes, 0, 3) then true
        else if Asks(d.bytes, 0, 4) then false
        else LastSwitch(on, es[..|es| - 1])
  }

  lemma {:induction false} SwitchFirst(on: bool, e: Event, es: seq<Event>)
    ensures LastSwitch(on, [e] + es) == LastSwitch(LastSwitch(on, [e]), es)
  {
    if es == [] {
      assert [e] + es == [e];
    } else {
      var n := |es| - 1;
      SwitchFirst(on, e, es[..n]);
      assert ([e] + es)[..n + 1] == [e] + es[..n] && ([e] + es)[n + 1] == es[n];
    }
  }

  // Over every run that does not end early, programming mode is on exactly when the last mode
  // command or panel key switched it on.
  lemma {:induction false} ModeIsLastSwitch(l: Loader, es: seq<Event>)
    requires |l.buf| == 4096 && AllReadable(es)
    ensures !AfterAll(l, es).overrun ==> AfterAll(l, es).loader.progMode == LastSwitch(l.progMode, es)
    decreases es
  {
    hide Answered, Readable, Fits, Asks, LastSwitch;
    if es == [] {
      assert LastSwitch(l.progMode, []) == l.progMode by { NothingSwitches(l.progMode); }
    } else if !Overruns(l, es[0]) {
      var e := es[0];
      SwitchFirst(l.progMode, e, es[1..]);
      assert [e] + es[1..] == es;
      OneSwitch(l, e);
      ModeIsLastSwitch(After(l, e), es[1..]);
    }
  }

  lemma NothingSwitches(on: bool)
    ensures LastSwitch(on, []) == on
  {
  }

  lemma OneSwitch(l: Loader, e: Event)
    requires |l.buf| == 4096 && (e.Received? ==> Readable(e.d))
    ensures After(l, e).progMode == LastSwitch(l.progMode, [e])
  {
    hide Answered, Readable, Asks;
    assert [e][..0] == [];
    if e.Received? {
      ModeBytes(l, e.d);
    }
  }

  // The head of every answer: version, name, answer flag, and the request's bytes 4 to 7.
  function Head(b: seq<byte>): seq<byte>
    requires 8 <= |b|
  {
    [1, 66, 84, 0, b[4], b[5], b[6], b[7]]
  }

  // Every answer by command number: the device name; a success byte for an update that is taken;
  // a success byte and the bytes read back, in programming mode; a success byte for each mode
  // switch; nothing otherwise.
  lemma AnswerBytes(l: Loader, d: Datagram, ram: seq<byte>)
    requires Readable(d) && Backed(d, ram)
    ensures var r, b := Reply(l, d, ram), d.bytes;
      if Asks(b, 0, 0) then
        r == Head(b) + [66, 84, 32, 70, 108, 97, 115, 104, 32, 76, 111, 97, 100, 101, 114, 32, 49, 46, 48]
      else if Asks(b, 0, 1) then r == if Updates(l.progMode, b, d.len) then Head(b) + [1] else []
      else if Asks(b, 0, 2) then
        && |b| >= 14 && (l.progMode ==> 256 * b[12] as int + b[13] as int <= |ram|)
        && r == if l.progMode then Head(b) + [1] + ram[..256 * b[12] as int + b[13] as int] else []
      else if Asks(b, 0, 3) || Asks(b, 0, 4) then r == Head(b) + [1]
      else r == []
  {
    CommandBytes(d, 0, 0);
    CommandBytes(d, 0, 1);
    CommandBytes(d, 0, 2);
    CommandBytes(d, 0, 3);
    CommandBytes(d, 0, 4);
    UpdatesAreAccepted(l, d);
    if Asks(d.bytes, 0, 2) {
      assert d.bytes[12..14] == [d.bytes[12], d.bytes[13]];
      assert Count(d) == 256 * d.bytes[12] as int + d.bytes[13] as int;
    }
    if 8 <= |d.bytes| {
      assert [1, 66, 84, 0] + d.bytes[4..8] == Head(d.bytes);
    }
    hide FromBe16, FromBe32, Updates, Accepts, Asks;
  }
}
