// Facts about single slots and page pointers.
module ArchiveCodec {
  import opened Bytes
  import opened ArchiveSpec

  // A written record checks and reads back unchanged.
  lemma RecordRoundTrip(c: Config, r: Rec)
    requires |r.payload| <= PAYLOAD
    ensures Check(c, Enc(c, r)) && Dec(Enc(c, r)) == r
    ensures Enc(c, r) != BLANK_SLOT
  {
    var s := Enc(c, r);
    assert s[7] == |r.payload|;
    assert s[..8] == Head(r);
    assert s[8..10] == Be16(c.crc(Head(r) + [0, 0] + r.payload));
    assert s[10..10 + |r.payload|] == r.payload;
    assert s[..4] == Be32(r.time) && s[4..6] == Be16(r.id);
    Be32RoundTrip(r.time);
    assert BLANK_SLOT[7] == 255;
  }

  // A record byte for byte: time, id, kind, length, checksum, then the payload and zeros.
  lemma RecordBytes(c: Config, r: Rec)
    requires |r.payload| <= 6
    ensures var s := Enc(c, r);
      && 256 * (256 * (256 * s[0] as int + s[1] as int) + s[2] as int) + s[3] as int == r.time
      && 256 * s[4] as int + s[5] as int == r.id && s[6] == r.kind && s[7] == |r.payload|
      && 256 * s[8] as int + s[9] as int == c.crc(s[..8] + [0, 0] + r.payload)
      && forall i :: 0 <= i < 6 ==> s[10 + i] == if i < |r.payload| then r.payload[i] else 0
  {
    var s := Enc(c, r);
    assert s[..8] == Head(r);
    Be32Bytes(r.time);
    Be16Bytes(r.id);
    Be16Bytes(c.crc(Head(r) + [0, 0] + r.payload));
    hide Be32, Be16;
    assert Head(r)[..4] == Be32(r.time) && Head(r)[4..6] == Be16(r.id);
    assert s[8..10] == Be16(c.crc(Head(r) + [0, 0] + r.payload));
    assert s[10..] == r.payload + Fill(6 - |r.payload|, 0);
    assert s[8] == s[8..10][0] && s[9] == s[8..10][1];
  }

  lemma Be32Bytes(x: u32)
    ensures |Be32(x)| == 4
    ensures var s := Be32(x);
      256 * (256 * (256 * s[0] as int + s[1] as int) + s[2] as int) + s[3] as int == x
  {
    assert x / 65536 == (x / 256) / 256;
    assert x / 16777216 == (x / 65536) / 256;
  }

  lemma Be16Bytes(x: u16)
    ensures |Be16(x)| == 2 && 256 * Be16(x)[0] as int + Be16(x)[1] as int == x
  {
  }

  // A pointer byte for byte: time, page, checksum.
  lemma PointerBytes(c: Config, time: u32, page: u16)
    ensures var e := EncPtr(c, time, page);
      && 256 * (256 * (256 * e[0] as int + e[1] as int) + e[2] as int) + e[3] as int == time
      && 256 * e[4] as int + e[5] as int == page
      && 256 * e[6] as int + e[7] as int == c.crc(e[..6])
  {
    Be32Bytes(time);
    Be16Bytes(page);
    Be16Bytes(c.crc(Be32(time) + Be16(page)));
    hide Be32, Be16;
    var e := EncPtr(c, time, page);
    assert e[..6] == Be32(time) + Be16(page) && e[..4] == Be32(time) && e[4..6] == Be16(page);
    assert e[6..8] == Be16(c.crc(e[..6]));
    assert e[4] == e[4..6][0] && e[5] == e[4..6][1] && e[6] == e[6..8][0] && e[7] == e[6..8][1];
  }

  lemma PointerRoundTrip(c: Config, time: u32, page: u16)
    ensures CheckPtr(c, EncPtr(c, time, page))
    ensures PtrTime(EncPtr(c, time, page)) == time && PtrPage(EncPtr(c, time, page)) == page
  {
    var e := EncPtr(c, time, page);
    assert e[..4] == Be32(time) && e[4..6] == Be16(page) && e[..6] == Be32(time) + Be16(page);
    assert e[6..8] == Be16(c.crc(e[..6]));
    Be32RoundTrip(time);
  }

  lemma BlankEntryNamesNoPage()
    ensures PtrPage(BLANK_ENTRY) == 65535
  {
  }

  lemma UnusedSlotsFail(c: Config)
    requires Sound(c)
    ensures !Check(c, BLANK_SLOT) && !Check(c, ZERO_SLOT)
  {
    assert ZERO_SLOT[..8] + [0, 0] + ZERO_SLOT[10..10 + ZERO_SLOT[7]] == Fill(10, 0);
    assert Be16(0) == ZERO_SLOT[8..10];
  }

  lemma BlankEntryFails(c: Config)
    requires Sound(c)
    ensures !CheckPtr(c, BLANK_ENTRY)
  {
    assert BLANK_ENTRY[..6] == Fill(6, 255);
    assert BLANK_ENTRY[6..8][0] == 255 && BLANK_ENTRY[6..8][1] == 255;
  }
}
