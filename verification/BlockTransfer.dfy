// Transfers to the display controller: padded data blocks (user/bt816_cmd.c, user/bt816_spi.c)
// and command strings.
module BlockTransfer {
  import opened Bytes

  const BLOCK_MAX: nat := 3840
  const TEXT_MAX: nat := 249
  const PREFIX: seq<byte> := [0xB0, 0x25, 0x78]  // write to the command buffer

  // Zeros to the next multiple of 4.
  function Pad(n: nat): nat {
    (4 - n % 4) % 4
  }

  // The bytes on the bus, one sequence per chip select.
  class Bus {
    var done: seq<seq<byte>>
    var open: seq<byte>

    constructor ()
      ensures done == [] && open == []
    {
      done, open := [], [];
    }

    method Select()
      modifies this
      ensures done == old(done) && open == []
    {
      open := [];
    }

    method Send(b: byte)
      modifies this`open
      ensures open == old(open) + [b]
    {
      open := open + [b];
    }

    method Deselect()
      modifies this
      ensures done == old(done) + [old(open)] && open == []
    {
      done, open := done + [open], [];
    }

    // bt816_spi_transmit_array_with_padding: the first byte goes out as the instruction, the
    // rest through the data counter, then the padding.
    method SendPadded(data: seq<byte>)
      modifies this`open
      ensures open == old(open) + data + Fill(Pad(|data|), 0)
    {
      if |data| > 0 {
        var length := (|data| + 3) / 4 * 4 - 1;
        var cnt := |data| - 1;
        Send(data[0]);
        var i := 0;
        while i < cnt
          invariant 0 <= i <= cnt && open == old(open) + data[..i + 1]
        {
          Send(data[i + 1]);
          i := i + 1;
        }
        assert data[..cnt + 1] == data;
        for k := cnt to length
          invariant open == old(open) + data + Fill(k - cnt, 0)
        {
          Send(0);
          assert Fill(k + 1 - cnt, 0) == Fill(k - cnt, 0) + [0];
        }
        assert length - cnt == Pad(|data|);
      } else {
        assert open == old(open) + data + Fill(0, 0);
      }
    }

    // bt816_block_transfer
    method Transfer(data: seq<byte>)
      modifies this
      ensures done == old(done) + BlocksOf(data)
    {
      var left := data;
      assert done + BlocksOf(left) == old(done) + BlocksOf(data);
      while |left| > 0
        invariant done + BlocksOf(left) == old(done) + BlocksOf(data)
        decreases |left|
      {
        var n := if |left| > BLOCK_MAX then BLOCK_MAX else |left|;
        ghost var before := done;
        Select();
        Send(0xB0);
        Send(0x25);
        Send(0x78);
        SendPadded(left[..n]);
        assert open == Block(left[..n]);
        Deselect();
        assert done == before + [Block(left[..n])];
        assert before + BlocksOf(left) == before + [Block(left[..n])] + BlocksOf(left[n..]);
        left := left[n..];
      }
    }

    // private_string_write: up to 249 characters of a zero-terminated string, then one to four
    // zeros up to a multiple of 4.
    method SendString(text: seq<byte>)
      requires 0 in text || |text| >= TEXT_MAX
      modifies this`open
      ensures open == old(open) + StringBytes(text)
    {
      var i := 0;
      while i < TEXT_MAX && text[i] != 0
        invariant 0 <= i <= TEXT_MAX && i <= |text|
        invariant 0 !in text[..i] && open == old(open) + text[..i]
        invariant i < TEXT_MAX ==> i < |text|
      {
        Send(text[i]);
        i := i + 1;
        assert text[..i] == text[..i - 1] + [text[i - 1]];
        if i == |text| {
          assert text[..i] == text;
        }
      }
      UpToIs(text, i);
      var padding := 4 - i % 4;
      ghost var n := padding;
      while padding > 0
        invariant 0 <= padding <= n && open == old(open) + text[..i] + Fill(n - padding, 0)
      {
        assert Fill(n - padding + 1, 0) == Fill(n - padding, 0) + [0];
        Send(0);
        padding := padding - 1;
      }
    }
  }

  function Block(data: seq<byte>): seq<byte> {
    PREFIX + data + Fill(Pad(|data|), 0)
  }

  function BlocksOf(data: seq<byte>): seq<seq<byte>>
    decreases |data|
  {
    if data == [] then []
    else
      var n := if |data| > BLOCK_MAX then BLOCK_MAX else |data|;
      [Block(data[..n])] + BlocksOf(data[n..])
  }

  // What the controller receives: the blocks without their prefixes.
  function Received(blocks: seq<seq<byte>>): seq<byte>
    requires forall k :: 0 <= k < |blocks| ==> |blocks[k]| >= 3
  {
    if blocks == [] then [] else blocks[0][3..] + Received(blocks[1..])
  }

  // Every block is prefixed, non-empty, at most 3840 bytes and a multiple of 4 long; all but the
  // last are full.
  lemma {:induction false} BlocksAreLegal(data: seq<byte>)
    ensures forall k :: 0 <= k < |BlocksOf(data)| - 1 ==> |BlocksOf(data)[k]| == 3 + 3840
    ensures forall k :: 0 <= k < |BlocksOf(data)| ==>
      3 < |BlocksOf(data)[k]| <= 3 + BLOCK_MAX && BlocksOf(data)[k][..3] == PREFIX && (|BlocksOf(data)[k]| - 3) % 4 == 0
    decreases |data|
  {
    hide Block;
    if data == [] {
    } else {
      var n := if |data| > BLOCK_MAX then BLOCK_MAX else |data|;
      BlocksAreLegal(data[n..]);
      BlockShape(data[..n]);
      assert |data[n..]| == 0 ==> BlocksOf(data[n..]) == [];
      assert n == BLOCK_MAX ==> |Block(data[..n])| == 3 + BLOCK_MAX;
    }
  }

  lemma ReceivedFirst(b: seq<byte>, rest: seq<seq<byte>>)
    requires |b| >= 3 && forall k :: 0 <= k < |rest| ==> |rest[k]| >= 3
    ensures Received([b] + rest) == b[3..] + Received(rest)
  {
    assert ([b] + rest)[1..] == rest;
  }

  // The controller receives exactly the data, then zeros to the next multiple of 4.
  lemma {:induction false} TransferDelivers(data: seq<byte>)
    ensures forall k :: 0 <= k < |BlocksOf(data)| ==> |BlocksOf(data)[k]| >= 3
    ensures Received(BlocksOf(data)) == data + Fill(Pad(|data|), 0)
    decreases |data|
  {
    hide Block, Pad, Received;
    BlocksAreLegal(data);
    if data != [] {
      var n := if |data| > BLOCK_MAX then BLOCK_MAX else |data|;
      var head, rest := data[..n], data[n..];
      TransferDelivers(rest);
      BlockShape(head);
      ReceivedFirst(Block(head), BlocksOf(rest));
      PadShift(|rest|);
      hide BlocksOf;
      assert data == head + rest;
      assert Fill(0, 0) == [] && head + [] == head;
    } else {
      PadShift(0);
      assert Received([]) == [] by { NothingReceived(); }
      assert Fill(0, 0) == [];
    }
  }

  lemma NothingReceived()
    ensures Received([]) == []
  {
  }

  lemma PadShift(n: nat)
    ensures Pad(n + BLOCK_MAX) == Pad(n) && Pad(BLOCK_MAX) == 0 && Pad(0) == 0
  {
  }

  lemma BlockShape(data: seq<byte>)
    requires 0 < |data| <= BLOCK_MAX
    ensures |Block(data)| > 3 && Block(data)[..3] == PREFIX && Block(data)[3..] == data + Fill(Pad(|data|), 0)
    ensures (|Block(data)| - 3) % 4 == 0 && |data| <= |Block(data)| - 3 <= BLOCK_MAX
  {
  }

  // Everything before the first zero, at most n bytes.
  function UpTo(text: seq<byte>, n: nat): (s: seq<byte>)
    ensures |s| <= n && s <= text
  {
    if n == 0 || text == [] || text[0] == 0 then [] else [text[0]] + UpTo(text[1..], n - 1)
  }

  function StringBytes(text: seq<byte>): seq<byte> {
    var s := UpTo(text, TEXT_MAX);
    s + Fill(4 - |s| % 4, 0)
  }

  lemma {:induction false} UpToPrefix(text: seq<byte>, i: nat, n: nat)
    requires i <= |text| && i <= n && 0 !in text[..i]
    requires i == n || i == |text| || text[i] == 0
    ensures UpTo(text, n) == text[..i]
  {
    if i == 0 {
    } else {
      assert text[0] in text[..i];
      assert text[1..][..i - 1] == text[..i][1..];
      UpToPrefix(text[1..], i - 1, n - 1);
      assert text[..i] == [text[0]] + text[1..][..i - 1];
    }
  }

  lemma UpToIs(text: seq<byte>, i: nat)
    requires i <= |text| && i <= TEXT_MAX && 0 !in text[..i]
    requires i == TEXT_MAX || (i < |text| && text[i] == 0)
    ensures UpTo(text, TEXT_MAX) == text[..i]
  {
    UpToPrefix(text, i, TEXT_MAX);
  }

  // A reader that stops at the first zero gets the string back exactly when it fits.
  lemma StringReadsBackIff(s: seq<byte>)
    requires 0 !in s
    ensures |StringBytes(s + [0])| % 4 == 0
    ensures var n := if |s| <= 249 then |s| else 249;
      && n < |StringBytes(s + [0])| <= n + 4 && StringBytes(s + [0])[..n] == s[..n]
      && forall k :: n <= k < |StringBytes(s + [0])| ==> StringBytes(s + [0])[k] == 0
    ensures UpTo(StringBytes(s + [0]), |StringBytes(s + [0])|) == s <==> |s| <= TEXT_MAX
  {
    var i := if |s| < TEXT_MAX then |s| else TEXT_MAX;
    var text := s + [0];
    assert text[..i] == s[..i];
    assert forall x :: x in s[..i] ==> x in s;
    UpToIs(text, i);
    var bytes := StringBytes(text);
    assert bytes[..i] == s[..i];
    UpToPrefix(bytes, i, |bytes|);
  }
}
