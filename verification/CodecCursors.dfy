/** The macros themselves: a cursor `p` with `left` bytes behind it, moved by every
    WRITE_ and READ_ macro. Each method is one macro; `return -1` is the status Refused. */
module CodecCursors {
  import opened ByteStrings
  import opened Codec
  import opened CodecProofs

  datatype Status = Ok | NotDone(lost: bool)

  // -------------------------------------------------- lists, item by item

  lemma ItemsSnoc(s: Schema, vs: seq<Value>, i: nat)
    requires i < |vs| && TypedItems(s, vs[..i + 1])
    ensures Typed(s, vs[i]) && TypedItems(s, vs[..i])
    ensures ItemsEncoding(s, vs[..i + 1]) == ItemsEncoding(s, vs[..i]) + Encoding(s, vs[i])
    ensures EncodableItems(s, vs[..i + 1]) <==> EncodableItems(s, vs[..i]) && Encodable(s, vs[i])
  {
    assert vs[..i + 1][..i] == vs[..i];
  }

  lemma TakeAll(vs: seq<Value>)
    ensures vs[..|vs|] == vs
  {
  }

  lemma {:induction false} ItemsPrefix(s: Schema, vs: seq<Value>, i: nat)
    requires TypedItems(s, vs) && i <= |vs|
    ensures TypedItems(s, vs[..i])
    ensures |ItemsEncoding(s, vs[..i])| <= |ItemsEncoding(s, vs)|
    ensures EncodableItems(s, vs) ==> EncodableItems(s, vs[..i])
    decreases |vs| - i
  {
    if i == |vs| {
      TakeAll(vs);
    } else {
      ItemsPrefix(s, vs, i + 1);
      ItemsSnoc(s, vs, i);
    }
  }

  // ------------------------------------------------------------- the writer

  class Writer {
    const buf: array<byte>
    var p: nat
    var left: nat

    ghost predicate Valid()
      reads this
    {
      p + left <= buf.Length
    }

    /** `encode(buffer, size)` starts a cursor of its own. */
    constructor (buffer: array<byte>, at: nat, size: nat)
      requires at + size <= buffer.Length
      ensures Valid() && buf == buffer && p == at && left == size
    {
      buf, p, left := buffer, at, size;
    }

    /** The bytes written are `bytes`; nothing else in the buffer changed. */
    twostate predicate Appends(bytes: seq<byte>)
      reads this, buf
    {
      && p == old(p) + |bytes| && left == old(left) - |bytes|
      && p <= buf.Length
      && (forall i :: 0 <= i < |bytes| ==> buf[old(p) + i] == bytes[i])
      && (forall i :: 0 <= i < old(p) ==> buf[i] == old(buf[i]))
      && (forall i :: p <= i < buf.Length ==> buf[i] == old(buf[i]))
    }

    /** A body that gave up has still written only inside its own room. */
    twostate predicate StaysInside()
      reads this, buf
    {
      && old(p) <= p && p + left == old(p + left)
      && (forall i :: 0 <= i < old(p) && i < buf.Length ==> buf[i] == old(buf[i]))
      && (forall i :: old(p + left) <= i < buf.Length ==> buf[i] == old(buf[i]))
    }

    /** The stores of one macro, byte by byte, and the cursor past them. */
    method Store(bytes: seq<byte>)
      requires Valid() && |bytes| <= left
      modifies this, buf
      ensures Valid() && StaysInside() && Appends(bytes)
    {
      forall i | 0 <= i < |bytes| { buf[p + i] := bytes[i]; }
      p, left := p + |bytes|, left - |bytes|;
    }

    method WriteInt8(v: nat) returns (ok: bool)
      requires Valid()
      modifies this, buf
      ensures Valid() && StaysInside()
      ensures ok <==> 1 <= old(left)
      ensures ok ==> Appends(BigEndian(v, 1))
    {
      if left < 1 { return false; }
      BigEndian1(v);
      Store([v % 256]);
      return true;
    }

    method WriteInt16(v: nat) returns (ok: bool)
      requires Valid()
      modifies this, buf
      ensures Valid() && StaysInside()
      ensures ok <==> 2 <= old(left)
      ensures ok ==> Appends(BigEndian(v, 2))
    {
      if left < 2 { return false; }
      BigEndian2(v);
      Store([v / 0x100 % 256, v % 256]);
      return true;
    }

    method WriteInt32(v: nat) returns (ok: bool)
      requires Valid()
      modifies this, buf
      ensures Valid() && StaysInside()
      ensures ok <==> 4 <= old(left)
      ensures ok ==> Appends(BigEndian(v, 4))
    {
      if left < 4 { return false; }
      BigEndian4(v);
      Store([v / 0x100_0000 % 256, v / 0x1_0000 % 256, v / 0x100 % 256, v % 256]);
      return true;
    }

    method WriteInt64(v: nat) returns (ok: bool)
      requires Valid()
      modifies this, buf
      ensures Valid() && StaysInside()
      ensures ok <==> 8 <= old(left)
      ensures ok ==> Appends(BigEndian(v, 8))
    {
      if left < 8 { return false; }
      BigEndian8(v);
      Store([v / 0x100_0000_0000_0000 % 256, v / 0x1_0000_0000_0000 % 256,
             v / 0x100_0000_0000 % 256, v / 0x1_0000_0000 % 256,
             v / 0x100_0000 % 256, v / 0x1_0000 % 256, v / 0x100 % 256, v % 256]);
      return true;
    }

    /** The escaped form of a variable integer: the tag byte, then `k` bytes. */
    method WriteEscaped(tag: byte, k: nat, v: nat) returns (ok: bool)
      requires Valid() && k in {2, 4, 8}
      modifies this, buf
      ensures Valid() && StaysInside()
      ensures ok <==> 1 + k <= old(left)
      ensures ok ==> Appends([tag] + BigEndian(v, k))
    {
      BigEndian1(tag);
      ok := WriteInt8(tag);
      if !ok { return; }
      if k == 2 {
        ok := WriteInt16(v);
      } else if k == 4 {
        ok := WriteInt32(v);
      } else {
        ok := WriteInt64(v);
      }
    }

    /** WRITE_INT16V, WRITE_INT32V (also WRITE_ENUM) and WRITE_INT64V. */
    method WriteVariable(s: Schema, v: nat) returns (ok: bool)
      requires Valid() && IsVariable(s) && v < Pow256(Width(s))
      modifies this, buf
      ensures Valid() && StaysInside()
      ensures ok <==> |IntEncoding(s, v)| <= old(left)
      ensures ok ==> Appends(IntEncoding(s, v))
    {
      var direct := if s.Int16V? then 255 else if s.Int32V? then 254 else 253;
      if v < direct {
        BigEndian1(v);
        assert IntEncoding(s, v) == [v];
        ok := WriteInt8(v);
      } else if s.Int16V? {
        ok := WriteEscaped(255, 2, v);
      } else if v <= 0xffff {
        ok := WriteEscaped(direct, 2, v);
      } else if s.Int32V? {
        ok := WriteEscaped(255, 4, v);
      } else if v <= 0xffff_ffff {
        ok := WriteEscaped(254, 4, v);
      } else {
        ok := WriteEscaped(255, 8, v);
      }
    }

    method WriteLength(n: nat) returns (ok: bool)
      requires Valid()
      modifies this, buf
      ensures Valid() && StaysInside()
      ensures ok <==> n <= MAX32 && |LengthEncoding(n)| <= old(left)
      ensures ok ==> Appends(LengthEncoding(n))
    {
      Pow256Values();
      if n > 0xffff_ffff { return false; }
      ok := WriteVariable(Int32V, n);
    }

    method WriteString(text: seq<byte>) returns (ok: bool)
      requires Valid()
      modifies this, buf
      ensures Valid() && StaysInside()
      ensures ok <==> |text| <= MAX32 && |LengthEncoding(|text|) + text| <= old(left)
      ensures ok ==> Appends(LengthEncoding(|text|) + text)
    {
      ok := WriteLength(|text|);
      if !ok { return; }
      if left < |text| { return false; }
      Store(text);
    }

    method WriteInteger(s: Schema, v: nat) returns (ok: bool)
      requires Valid() && IsInteger(s) && v < Pow256(Width(s))
      modifies this, buf
      ensures Valid() && StaysInside()
      ensures ok <==> |IntEncoding(s, v)| <= old(left)
      ensures ok ==> Appends(IntEncoding(s, v))
    {
      if IsVariable(s) {
        ok := WriteVariable(s, v);
      } else if s.Int8? {
        ok := WriteInt8(v);
      } else if s.Int16? {
        ok := WriteInt16(v);
      } else if s.Int32? {
        ok := WriteInt32(v);
      } else {
        ok := WriteInt64(v);
      }
    }

    /** Any one-argument macro. It succeeds exactly when the format can carry the value and
        the room is enough; a lost cursor needs a room beyond what an `int` can count. */
    method WriteValue(s: Schema, v: Value) returns (st: Status)
      requires Valid() && Typed(s, v)
      modifies this, buf
      ensures Valid() && StaysInside()
      ensures st.Ok? <==> Encodable(s, v) && |Encoding(s, v)| <= old(left)
      ensures st.Ok? ==> Appends(Encoding(s, v))
      ensures st == NotDone(true) ==> old(left) > INT_MAX
      decreases s, 0
    {
      match s {
        case Str =>
          var ok := WriteString(v.bytes);
          st := if ok then Ok else NotDone(false);
        case Struct(fs) =>
          st := WriteStruct(fs, v.members);
        case _ =>
          var ok := WriteInteger(s, v.n);
          st := if ok then Ok else NotDone(false);
      }
    }

    /** WRITE_STRUCT: the nested `encode` works on the same bytes with its own cursor and
        reports its size as an `int`. */
    method WriteStruct(fs: seq<Field>, vs: seq<Value>) returns (st: Status)
      requires Valid() && TypedFields(fs, vs)
      modifies this, buf
      ensures Valid() && StaysInside()
      ensures st.Ok? <==> EncodableFields(fs, vs) && |FieldsEncoding(fs, vs)| <= INT_MAX
                          && |FieldsEncoding(fs, vs)| <= old(left)
      ensures st.Ok? ==> Appends(FieldsEncoding(fs, vs))
      ensures st == NotDone(true) ==> old(left) > INT_MAX
      decreases fs, 1
    {
      var body := new Writer(buf, p, left);
      st := body.WriteFields(fs, vs);
      if st.NotDone? { return; }
      var used := body.p - p;
      var size := AsInt32(used);
      if size == -1 { return NotDone(false); }
      if size != used { return NotDone(true); }
      p, left := p + size, left - size;
    }

    /** The body of a generated `encode`: its macros one after the other. */
    method WriteFields(fs: seq<Field>, vs: seq<Value>) returns (st: Status)
      requires Valid() && TypedFields(fs, vs)
      modifies this, buf
      ensures Valid() && StaysInside()
      ensures st.Ok? <==> EncodableFields(fs, vs) && |FieldsEncoding(fs, vs)| <= old(left)
      ensures st.Ok? ==> Appends(FieldsEncoding(fs, vs))
      ensures st == NotDone(true) ==> old(left) > INT_MAX
      decreases fs, 0
    {
      if fs == [] { return Ok; }
      st := WriteField(fs[0], vs[0]);
      if st.NotDone? { return; }
      st := WriteFields(fs[1..], vs[1..]);
    }

    method WriteField(f: Field, v: Value) returns (st: Status)
      requires Valid() && TypedField(f, v)
      modifies this, buf
      ensures Valid() && StaysInside()
      ensures st.Ok? <==> EncodableField(f, v) && |FieldEncoding(f, v)| <= old(left)
      ensures st.Ok? ==> Appends(FieldEncoding(f, v))
      ensures st == NotDone(true) ==> old(left) > INT_MAX
      decreases f, 0
    {
      match f {
        case Single(s) => st := WriteValue(s, v);
        case EnumField =>
          var ok := WriteVariable(Int32V, v.n);
          st := if ok then Ok else NotDone(false);
        case ListOf(s) => st := WriteList(s, v.items);
      }
    }

    /** WRITE_LIST. */
    method WriteList(s: Schema, items: seq<Value>) returns (st: Status)
      requires Valid() && TypedItems(s, items)
      modifies this, buf
      ensures Valid() && StaysInside()
      ensures st.Ok? <==> |items| <= MAX32 && EncodableItems(s, items)
                          && |LengthEncoding(|items|) + ItemsEncoding(s, items)| <= old(left)
      ensures st.Ok? ==> Appends(LengthEncoding(|items|) + ItemsEncoding(s, items))
      ensures st == NotDone(true) ==> old(left) > INT_MAX
      decreases s, 2
    {
      var ok := WriteLength(|items|);
      if !ok { return NotDone(false); }
      st := WriteItems(s, items);
    }

    /** The loop of WRITE_LIST. */
    method WriteItems(s: Schema, items: seq<Value>) returns (st: Status)
      requires Valid() && TypedItems(s, items)
      modifies this, buf
      ensures Valid() && StaysInside()
      ensures st.Ok? <==> EncodableItems(s, items) && |ItemsEncoding(s, items)| <= old(left)
      ensures st.Ok? ==> Appends(ItemsEncoding(s, items))
      ensures st == NotDone(true) ==> old(left) > INT_MAX
      decreases s, 1
    {
      hide Encoding, Encodable, Typed;
      var i := 0;
      while i < |items|
        invariant 0 <= i <= |items| && Valid() && p + left == old(p + left)
        invariant TypedItems(s, items[..i]) && EncodableItems(s, items[..i])
        invariant Appends(ItemsEncoding(s, items[..i]))
      {
        ItemsPrefix(s, items, i + 1);
        ItemsSnoc(s, items, i);
        st := WriteValue(s, items[i]);
        if st.NotDone? { return; }
        i := i + 1;
      }
      TakeAll(items);
      return Ok;
    }
  }

  // ------------------------------------------------------------- the reader

  /** A list that stopped early has stopped for good. */
  lemma {:induction false} ItemsStopped(s: Schema, i: nat, n: nat, bs: seq<byte>)
    requires i <= n && !DecodeItems(s, i, bs).Done?
    ensures DecodeItems(s, n, bs) == DecodeItems(s, i, bs)
    decreases n
  {
    if i < n { ItemsStopped(s, i, n - 1, bs); }
  }

  class Reader {
    const src: seq<byte>
    var p: nat
    var left: nat

    ghost predicate Valid()
      reads this
    {
      p + left <= |src|
    }

    /** The bytes still ahead of the cursor. */
    ghost function Rest(): seq<byte>
      requires Valid()
      reads this
    {
      src[p..p + left]
    }

    constructor (bytes: seq<byte>, at: nat, size: nat)
      requires at + size <= |bytes|
      ensures Valid() && src == bytes && p == at && left == size
    {
      src, p, left := bytes, at, size;
    }

    /** The cursor stands after the first `used` bytes. */
    twostate predicate Moved(used: nat)
      reads this
    {
      p == old(p) + used && left == old(left) - used
    }

    /** READ_INT8, READ_INT16, READ_INT32 and READ_INT64, by width. */
    method ReadBytes(k: nat) returns (r: Outcome<nat>)
      requires Valid() && k in {1, 2, 4, 8}
      modifies this
      ensures Valid() && r == ReadFixed(old(Rest()), k)
      ensures r.Done? ==> Moved(r.used)
    {
      if left < k { return Refused; }
      var s := src[p..p + k];
      assert Rest()[..k] == s;
      var n: nat;
      if k == 1 {
        Number1(s);
        n := src[p];
      } else if k == 2 {
        Number2(s);
        n := Wide(src[p + 1]) + Wide(src[p]) * 0x100;
      } else if k == 4 {
        Number4(s);
        n := Wide(src[p + 3]) + Wide(src[p + 2]) * 0x100 + Wide(src[p + 1]) * 0x1_0000 + Wide(src[p]) * 0x100_0000;
      } else {
        Number8(s);
        n := Wide(src[p + 7]) + Wide(src[p + 6]) * 0x100 + Wide(src[p + 5]) * 0x1_0000 + Wide(src[p + 4]) * 0x100_0000
          + Wide(src[p + 3]) * 0x1_0000_0000 + Wide(src[p + 2]) * 0x100_0000_0000
          + Wide(src[p + 1]) * 0x1_0000_0000_0000 + Wide(src[p]) * 0x100_0000_0000_0000;
      }
      p, left := p + k, left - k;
      return Done(n, k);
    }

    method ReadInteger(s: Schema) returns (r: Outcome<nat>)
      requires Valid() && IsInteger(s)
      modifies this
      ensures Valid() && r == ReadInt(s, old(Rest()))
      ensures r.Done? ==> Moved(r.used)
    {
      if !IsVariable(s) {
        r := ReadBytes(Width(s));
        return;
      }
      ghost var before := Rest();
      r := ReadBytes(1);
      if r.Refused? { return; }
      Number1(before[..1]);
      assert Rest() == before[1..];
      var tag := r.value;
      var direct := if s.Int16V? then 255 else if s.Int32V? then 254 else 253;
      if tag < direct { return; }
      if tag == direct {
        r := ReadBytes(2);
      } else if s.Int32V? || tag == 254 {
        r := ReadBytes(4);
      } else {
        r := ReadBytes(8);
      }
      if r.Done? { r := Done(r.value, r.used + 1); }
    }

    method ReadString() returns (r: Outcome<Value>)
      requires Valid()
      modifies this
      ensures Valid() && r == Decode(Str, old(Rest()))
      ensures r.Done? ==> Moved(r.used)
    {
      ghost var before := Rest();
      var n := ReadInteger(Int32V);
      if !n.Done? || left < n.value { return Refused; }
      r := Done(Text(src[p..p + n.value]), n.used + n.value);
      Slice(src, old(p), old(p) + old(left), n.used, n.value);
      p, left := p + n.value, left - n.value;
    }

    method ReadValue(s: Schema) returns (r: Outcome<Value>)
      requires Valid()
      modifies this
      ensures Valid() && r == Decode(s, old(Rest()))
      ensures r.Done? ==> Moved(r.used)
      decreases s, 0
    {
      match s {
        case Str => r := ReadString();
        case Struct(fs) => r := ReadStruct(fs);
        case _ =>
          var n := ReadInteger(s);
          r := if n.Done? then Done(Num(n.value), n.used) else Refused;
      }
    }

    method ReadStruct(fs: seq<Field>) returns (r: Outcome<Value>)
      requires Valid()
      modifies this
      ensures Valid() && r == StructOutcome(DecodeFields(fs, old(Rest())))
      ensures r.Done? ==> Moved(r.used)
      decreases fs, 1
    {
      var body := new Reader(src, p, left);
      var vs := body.ReadFields(fs);
      if !vs.Done? { return Stop(vs); }
      var size := AsInt32(vs.used);
      if size == -1 { return Refused; }
      if size != vs.used { return Lost; }
      p, left := p + size, left - size;
      return Done(Rec(vs.value), size);
    }

    method ReadFields(fs: seq<Field>) returns (r: Outcome<seq<Value>>)
      requires Valid()
      modifies this
      ensures Valid() && r == DecodeFields(fs, old(Rest()))
      ensures r.Done? ==> Moved(r.used)
      decreases fs, 0
    {
      if fs == [] { return Done([], 0); }
      ghost var before := Rest();
      var first := ReadField(fs[0]);
      if !first.Done? { return Stop(first); }
      assert Rest() == before[first.used..];
      var rest := ReadFields(fs[1..]);
      return Follow(first, rest);
    }

    method ReadField(f: Field) returns (r: Outcome<Value>)
      requires Valid()
      modifies this
      ensures Valid() && r == DecodeField(f, old(Rest()))
      ensures r.Done? ==> Moved(r.used)
      decreases f, 0
    {
      match f {
        case Single(s) => r := ReadValue(s);
        case EnumField =>
          var n := ReadInteger(Int32V);
          r := if n.Done? then Done(Num(n.value), n.used) else Refused;
        case ListOf(s) => r := ReadList(s);
      }
    }

    /** READ_LIST. */
    method ReadList(s: Schema) returns (r: Outcome<Value>)
      requires Valid()
      modifies this
      ensures Valid() && r == DecodeField(ListOf(s), old(Rest()))
      ensures r.Done? ==> Moved(r.used)
      decreases s, 2
    {
      ghost var before := Rest();
      var n := ReadInteger(Int32V);
      if !n.Done? { return Refused; }
      assert Rest() == before[n.used..];
      var items := ReadItems(s, n.value);
      r := if items.Done? then Done(Many(items.value), n.used + items.used) else Stop(items);
    }

    /** The loop of READ_LIST. */
    method ReadItems(s: Schema, n: nat) returns (r: Outcome<seq<Value>>)
      requires Valid()
      modifies this
      ensures Valid() && r == DecodeItems(s, n, old(Rest()))
      ensures r.Done? ==> Moved(r.used)
      decreases s, 1
    {
      hide ReadInt, Decode;
      r := Done([], 0);
      var i: nat := 0;
      while i < n
        invariant i <= n && r == DecodeItems(s, i, old(Rest())) && r.Done? && Moved(r.used)
      {
        SliceTail(src, old(p), old(p + left), r.used);
        var v := ReadValue(s);
        i := i + 1;
        if !v.Done? {
          ItemsStopped(s, i, n, old(Rest()));
          return Stop(v);
        }
        r := Append(r, v);
      }
    }
  }
}
