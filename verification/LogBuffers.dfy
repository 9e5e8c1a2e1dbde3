/** The two stretches of the asynchronous sink that work on one buffer, on the real class. */
module LogBuffers {
  import opened ByteStrings
  import B = BufferSpec
  import opened DynamicBuffers

  /** `Impl::log`: reserve, copy, advance. An empty buffer then reads as the record. */
  method FillBuffer(buffer: DynamicBuffer, rec: seq<byte>)
    requires buffer.Valid() && buffer.State().CanReserve(|rec|)
    modifies buffer, buffer.buffer
    ensures buffer.Valid() && buffer.State() == B.WriteBytes(old(buffer.State()), rec)
    ensures old(buffer.State().Readable()) == [] ==> buffer.State().Readable() == rec
  {
    buffer.ReserveWritableBytes(|rec|);
    buffer.Fill(rec);
    buffer.Write(|rec|);
    assert [] + rec == rec;
  }

  /** `logThreadFunc`: hand the readable bytes to the adapted sink and consume them. */
  method LogAndDrain(buffer: DynamicBuffer) returns (logged: seq<byte>)
    requires buffer.Valid()
    modifies buffer
    ensures buffer.Valid() && logged == old(buffer.State().Readable())
    ensures buffer.State() == B.Read(old(buffer.State()), |logged|) && buffer.State().Readable() == []
  {
    logged := buffer.buffer[buffer.readIndex..buffer.writeIndex];
    var n := buffer.ReadableBytes();
    buffer.Read(n);
  }
}
