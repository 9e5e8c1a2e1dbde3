/** The buffer class of dynamic_buffer.cc: storage, two cursors and an expansion step,
    changed in place. Every method is proved against its value-level counterpart. */
module DynamicBuffers {
  import opened Basics
  import opened ByteStrings
  import opened BufferSpec

  /** The shift-and-truncate expressions of writeInt8 .. writeInt64, high byte first. */
  method Disassemble(v: nat, k: nat) returns (s: seq<byte>)
    requires k in {1, 2, 4, 8}
    ensures s == BigEndian(v, k)
  {
    if k == 1 {
      BigEndian1(v);
      return [v % 256];
    } else if k == 2 {
      BigEndian2(v);
      return [v / 0x100 % 256, v % 256];
    } else if k == 4 {
      BigEndian4(v);
      return [v / 0x100_0000 % 256, v / 0x1_0000 % 256, v / 0x100 % 256, v % 256];
    } else {
      BigEndian8(v);
      return [v / 0x100_0000_0000_0000 % 256, v / 0x1_0000_0000_0000 % 256,
              v / 0x100_0000_0000 % 256, v / 0x1_0000_0000 % 256,
              v / 0x100_0000 % 256, v / 0x1_0000 % 256, v / 0x100 % 256, v % 256];
    }
  }

  /** The widen-and-shift expressions of peekInt8 .. peekInt64. */
  method Assemble(b: seq<byte>) returns (v: nat)
    requires |b| in {1, 2, 4, 8}
    ensures v == Number(b)
  {
    if |b| == 1 {
      Number1(b);
      return b[0];
    } else if |b| == 2 {
      Number2(b);
      return Wide(b[1]) + Wide(b[0]) * 0x100;
    } else if |b| == 4 {
      Number4(b);
      return Wide(b[3]) + Wide(b[2]) * 0x100 + Wide(b[1]) * 0x1_0000 + Wide(b[0]) * 0x100_0000;
    } else {
      Number8(b);
      return Wide(b[7]) + Wide(b[6]) * 0x100 + Wide(b[5]) * 0x1_0000 + Wide(b[4]) * 0x100_0000
        + Wide(b[3]) * 0x1_0000_0000 + Wide(b[2]) * 0x100_0000_0000
        + Wide(b[1]) * 0x1_0000_0000_0000 + Wide(b[0]) * 0x100_0000_0000_0000;
    }
  }

  class DynamicBuffer {
    var buffer: array<byte>
    var expandSize: nat
    var readIndex: nat
    var writeIndex: nat

    ghost function State(): Buf
      reads this, buffer
    {
      Buf(buffer[..], readIndex, writeIndex, expandSize)
    }

    ghost predicate Valid()
      reads this, buffer
    {
      State().Valid()
    }

    constructor (initSize: nat, expand: nat)
      requires initSize < TWO64 && 0 < expand < TWO64
      ensures Valid() && fresh(buffer) && State() == Fresh(initSize, expand)
      ensures buffer.Length == initSize && expandSize == expand && State().Readable() == []
    {
      buffer := new byte[initSize](_ => 0);
      expandSize, readIndex, writeIndex := expand, 0, 0;
    }

    method ReadableBytes() returns (n: nat)
      requires Valid()
      ensures n == |State().Readable()|
    {
      n := writeIndex - readIndex;
    }

    method WritableBytes() returns (n: nat)
      requires Valid()
      ensures n == State().WritableBytes()
    {
      n := buffer.Length - writeIndex;
    }

    method Clear()
      requires Valid()
      modifies this`readIndex, this`writeIndex
      ensures Valid() && State() == BufferSpec.Clear(old(State()))
      ensures State().Readable() == [] && readIndex == 0
    {
      readIndex, writeIndex := 0, 0;
    }

    method Read(size: nat)
      requires Valid()
      modifies this`readIndex, this`writeIndex
      ensures Valid() && State() == BufferSpec.Read(old(State()), size)
    {
      readIndex := readIndex + Min(size, writeIndex - readIndex);
      if readIndex == writeIndex { readIndex, writeIndex := 0, 0; }
    }

    method Write(size: nat)
      requires Valid()
      modifies this`writeIndex
      ensures Valid() && State() == BufferSpec.Write(old(State()), size)
    {
      writeIndex := writeIndex + Min(size, buffer.Length - writeIndex);
    }

    /** A client copying into `writeBegin()`. */
    method Fill(bytes: seq<byte>)
      requires Valid() && |bytes| <= buffer.Length - writeIndex
      modifies buffer
      ensures Valid() && State() == BufferSpec.Fill(old(State()), bytes)
    {
      forall i | 0 <= i < |bytes| { buffer[writeIndex + i] := bytes[i]; }
      assert buffer[..] == old(buffer[..writeIndex]) + bytes + old(buffer[writeIndex + |bytes|..]);
    }

    method ReserveWritableBytes(size: nat)
      requires Valid() && State().CanReserve(size)
      modifies this
      ensures Valid() && State() == Reserve(old(State()), size)
      ensures buffer == old(buffer) || fresh(buffer)
    {
      var writable := buffer.Length - writeIndex;
      if writable >= size { return; }
      var freeBytes := readIndex + writable;
      var newSize := buffer.Length;
      if freeBytes >= size && freeBytes - size < expandSize {
        newSize := (newSize + expandSize) % TWO64;
      } else {
        newSize := (newSize + Chunks(Sub64(size, freeBytes), expandSize) % TWO64) % TWO64;
      }
      GrownSizeBounds(State(), size);
      MoveTo(newSize);
    }

    /** The readable bytes move to the front of a new, zeroed storage. */
    method MoveTo(newSize: nat)
      requires Valid() && State().ReadableBytes() <= newSize
      modifies this
      ensures fresh(buffer) && expandSize == old(expandSize)
      ensures readIndex == 0 && writeIndex == old(State().ReadableBytes())
      ensures buffer[..] == old(State().Readable()) + seq(newSize - writeIndex, _ => 0)
    {
      var readable := writeIndex - readIndex;
      var newBuffer := new byte[newSize](_ => 0);
      forall i | 0 <= i < readable { newBuffer[i] := buffer[readIndex + i]; }
      buffer, readIndex, writeIndex := newBuffer, 0, readable;
    }

    /** readBytes: copies out what there is, up to `count`. */
    method ReadBytes(count: nat) returns (bytes: seq<byte>)
      requires Valid()
      modifies this`readIndex, this`writeIndex
      ensures Valid() && State() == BufferSpec.Read(old(State()), count)
      ensures bytes == old(State().Readable())[..Min(count, old(State().ReadableBytes()))]
    {
      var realCount := Min(count, writeIndex - readIndex);
      bytes := buffer[readIndex..readIndex + realCount];
      Slice(buffer[..], readIndex, writeIndex, 0, realCount);
      assert bytes == buffer[..][readIndex..readIndex + realCount];
      readIndex := readIndex + realCount;
      if readIndex == writeIndex { readIndex, writeIndex := 0, 0; }
    }

    method WriteBytes(bytes: seq<byte>)
      requires Valid() && State().CanReserve(|bytes|)
      modifies this, buffer
      ensures Valid() && State() == BufferSpec.WriteBytes(old(State()), bytes)
      ensures buffer == old(buffer) || fresh(buffer)
    {
      ReserveWritableBytes(|bytes|);
      Fill(bytes);
      writeIndex := writeIndex + |bytes|;
    }

    /** writeInt8 .. writeInt64: the shifted bytes, stored from either end. */
    method WriteInt(v: nat, k: nat, littleEndian: bool)
      requires Valid() && k in {1, 2, 4, 8} && State().CanReserve(k)
      modifies this, buffer
      ensures Valid() && State() == BufferSpec.WriteInt(old(State()), v, k, littleEndian)
      ensures buffer == old(buffer) || fresh(buffer)
    {
      ReserveWritableBytes(k);
      var high := Disassemble(v, k);
      Fill(if littleEndian then Reversed(high) else high);
      Write(k);
    }

    /** peekInt8 .. peekInt64: each byte widened and shifted into place. */
    method PeekInt(offset: nat, k: nat, littleEndian: bool) returns (r: Maybe<nat>)
      requires Valid() && k in {1, 2, 4, 8} && offset + k < TWO64
      ensures r == Peek(State(), offset, k, littleEndian)
    {
      if writeIndex - readIndex < (offset + k) % TWO64 { return None; }
      var p := readIndex + offset;
      var raw := buffer[p..p + k];
      PeekOf(State(), offset, k, littleEndian, raw);
      var v := Assemble(if littleEndian then Reversed(raw) else raw);
      return Some(v);
    }

    method ReadInt(k: nat, littleEndian: bool) returns (r: Maybe<nat>)
      requires Valid() && k in {1, 2, 4, 8}
      modifies this`readIndex, this`writeIndex
      ensures Valid() && (r, State()) == BufferSpec.ReadInt(old(State()), k, littleEndian)
    {
      r := PeekInt(0, k, littleEndian);
      if r.Some? { Read(k); }
    }

    method Swap(other: DynamicBuffer)
      requires Valid() && other.Valid()
      modifies this, other
      ensures Valid() && other.Valid()
      ensures State() == old(other.State()) && other.State() == old(State())
    {
      buffer, other.buffer := other.buffer, buffer;
      expandSize, other.expandSize := other.expandSize, expandSize;
      readIndex, other.readIndex := other.readIndex, readIndex;
      writeIndex, other.writeIndex := other.writeIndex, writeIndex;
    }
  }
}
