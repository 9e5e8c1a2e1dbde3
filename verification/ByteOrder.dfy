/** The byte orders of the buffer in literal bytes: what an integer of each width looks like
    after it is written, and what a peek makes of the bytes at an offset. */
module ByteOrders {
  import opened Basics
  import opened ByteStrings
  import opened BufferSpec

  lemma Written1(b: Buf, v: nat, littleEndian: bool)
    requires b.Valid() && b.CanReserve(1)
    ensures WriteInt(b, v, 1, littleEndian).Readable() == b.Readable() + [v % 0x100]
  {
    BigEndian1(v);
    assert Reversed([v % 0x100]) == [v % 0x100];
  }

  lemma Written2(b: Buf, v: nat)
    requires b.Valid() && b.CanReserve(2)
    ensures WriteInt(b, v, 2, false).Readable() == b.Readable() + [v / 0x100 % 0x100, v % 0x100]
    ensures WriteInt(b, v, 2, true).Readable() == b.Readable() + [v % 0x100, v / 0x100 % 0x100]
  {
    hide BigEndian;
    BigEndian2(v);
    assert Reversed(BigEndian(v, 2)) == [v % 0x100, v / 0x100 % 0x100];
  }

  lemma Written4(b: Buf, v: nat)
    requires b.Valid() && b.CanReserve(4)
    ensures WriteInt(b, v, 4, false).Readable() == b.Readable() +
      [v / 0x100_0000 % 0x100, v / 0x1_0000 % 0x100, v / 0x100 % 0x100, v % 0x100]
    ensures WriteInt(b, v, 4, true).Readable() == b.Readable() +
      [v % 0x100, v / 0x100 % 0x100, v / 0x1_0000 % 0x100, v / 0x100_0000 % 0x100]
  {
    hide BigEndian;
    BigEndian4(v);
    assert Reversed(BigEndian(v, 4)) ==
      [v % 0x100, v / 0x100 % 0x100, v / 0x1_0000 % 0x100, v / 0x100_0000 % 0x100];
  }

  lemma Written8(b: Buf, v: nat)
    requires b.Valid() && b.CanReserve(8)
    ensures WriteInt(b, v, 8, false).Readable() == b.Readable() +
      [v / 0x100_0000_0000_0000 % 0x100, v / 0x1_0000_0000_0000 % 0x100,
       v / 0x100_0000_0000 % 0x100, v / 0x1_0000_0000 % 0x100,
       v / 0x100_0000 % 0x100, v / 0x1_0000 % 0x100, v / 0x100 % 0x100, v % 0x100]
    ensures WriteInt(b, v, 8, true).Readable() == b.Readable() +
      [v % 0x100, v / 0x100 % 0x100, v / 0x1_0000 % 0x100, v / 0x100_0000 % 0x100,
       v / 0x1_0000_0000 % 0x100, v / 0x100_0000_0000 % 0x100,
       v / 0x1_0000_0000_0000 % 0x100, v / 0x100_0000_0000_0000 % 0x100]
  {
    hide BigEndian;
    BigEndian8(v);
    assert Reversed(BigEndian(v, 8)) ==
      [v % 0x100, v / 0x100 % 0x100, v / 0x1_0000 % 0x100, v / 0x100_0000 % 0x100,
       v / 0x1_0000_0000 % 0x100, v / 0x100_0000_0000 % 0x100,
       v / 0x1_0000_0000_0000 % 0x100, v / 0x100_0000_0000_0000 % 0x100];
  }

  /** Stored bytes, widened so that they can be weighed. */
  function At(b: Buf, i: nat): nat
    requires b.Valid() && i < |b.Readable()|
  {
    b.Readable()[i]
  }

  lemma Peeked1(b: Buf, offset: nat, littleEndian: bool)
    requires b.Valid() && offset + 1 <= |b.Readable()|
    ensures Peek(b, offset, 1, littleEndian) == Some(At(b, offset))
  {
    var raw := b.Readable()[offset..offset + 1];
    assert Reversed(raw) == raw;
    Number1(raw);
    PeekMeaning(b, offset, 1, littleEndian);
  }

  lemma Peeked2(b: Buf, offset: nat)
    requires b.Valid() && offset + 2 <= |b.Readable()|
    ensures Peek(b, offset, 2, false) == Some(At(b, offset) * 0x100 + At(b, offset + 1))
    ensures Peek(b, offset, 2, true) == Some(At(b, offset) + At(b, offset + 1) * 0x100)
  {
    hide Number;
    var raw := b.Readable()[offset..offset + 2];
    Number2(raw);
    Number2(Reversed(raw));
    PeekMeaning(b, offset, 2, false);
    PeekMeaning(b, offset, 2, true);
  }

  lemma Peeked4(b: Buf, offset: nat)
    requires b.Valid() && offset + 4 <= |b.Readable()|
    ensures Peek(b, offset, 4, false) == Some(
      At(b, offset) * 0x100_0000 + At(b, offset + 1) * 0x1_0000 + At(b, offset + 2) * 0x100 + At(b, offset + 3))
    ensures Peek(b, offset, 4, true) == Some(
      At(b, offset) + At(b, offset + 1) * 0x100 + At(b, offset + 2) * 0x1_0000 + At(b, offset + 3) * 0x100_0000)
  {
    hide Number;
    var raw := b.Readable()[offset..offset + 4];
    Number4(raw);
    Number4(Reversed(raw));
    PeekMeaning(b, offset, 4, false);
    PeekMeaning(b, offset, 4, true);
  }

  lemma Peeked8(b: Buf, offset: nat)
    requires b.Valid() && offset + 8 <= |b.Readable()|
    ensures Peek(b, offset, 8, false) == Some(
      At(b, offset) * 0x100_0000_0000_0000 + At(b, offset + 1) * 0x1_0000_0000_0000
      + At(b, offset + 2) * 0x100_0000_0000 + At(b, offset + 3) * 0x1_0000_0000
      + At(b, offset + 4) * 0x100_0000 + At(b, offset + 5) * 0x1_0000 + At(b, offset + 6) * 0x100 + At(b, offset + 7))
    ensures Peek(b, offset, 8, true) == Some(
      At(b, offset) + At(b, offset + 1) * 0x100 + At(b, offset + 2) * 0x1_0000 + At(b, offset + 3) * 0x100_0000
      + At(b, offset + 4) * 0x1_0000_0000 + At(b, offset + 5) * 0x100_0000_0000
      + At(b, offset + 6) * 0x1_0000_0000_0000 + At(b, offset + 7) * 0x100_0000_0000_0000)
  {
    hide Number;
    var raw := b.Readable()[offset..offset + 8];
    Number8(raw);
    Number8(Reversed(raw));
    PeekMeaning(b, offset, 8, false);
    PeekMeaning(b, offset, 8, true);
  }

  /** With fewer bytes than the width behind the offset there is nothing to see. */
  lemma PeekedShort(b: Buf, offset: nat, k: nat, littleEndian: bool)
    requires b.Valid() && |b.Readable()| < offset + k < TWO64
    ensures Peek(b, offset, k, littleEndian) == None
  {
    PeekMeaning(b, offset, k, littleEndian);
  }
}
