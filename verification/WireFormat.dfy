/** The exchange format in literal bytes: what each kind of value looks like on the wire, and
    what the decoder makes of every byte string, the padded and the truncated ones included. */
module WireFormat {
  import opened ByteStrings
  import opened Codec

  // ------------------------------------------------- integers as written

  /** Four and eight bytes, most significant first. */
  function HighFirst4(n: nat): seq<byte>
    requires n <= 0xffff_ffff
  {
    [n / 0x100_0000, n / 0x1_0000 % 0x100, n / 0x100 % 0x100, n % 0x100]
  }

  function HighFirst8(n: nat): seq<byte>
    requires n <= 0xffff_ffff_ffff_ffff
  {
    [n / 0x100_0000_0000_0000, n / 0x1_0000_0000_0000 % 0x100,
     n / 0x100_0000_0000 % 0x100, n / 0x1_0000_0000 % 0x100,
     n / 0x100_0000 % 0x100, n / 0x1_0000 % 0x100, n / 0x100 % 0x100, n % 0x100]
  }

  /** What INT32V, ENUM and every length prefix write. */
  function Compact32(n: nat): seq<byte>
    requires n <= 0xffff_ffff
  {
    if n < 254 then [n]
    else if n <= 0xffff then [254, n / 0x100, n % 0x100]
    else [255] + HighFirst4(n)
  }

  lemma Stored4(n: nat)
    requires n <= 0xffff_ffff
    ensures BigEndian(n, 4) == HighFirst4(n)
  {
    BigEndian4(n);
  }

  lemma Stored8(n: nat)
    requires n <= 0xffff_ffff_ffff_ffff
    ensures BigEndian(n, 8) == HighFirst8(n)
  {
    hide BigEndian;
    BigEndian8(n);
  }

  lemma Int8Bytes(n: nat)
    requires n <= 0xff
    ensures Typed(Int8, Num(n)) && Encodable(Int8, Num(n)) && Encoding(Int8, Num(n)) == [n]
  {
    Pow256Values();
    BigEndian1(n);
  }

  lemma Int16Bytes(n: nat)
    requires n <= 0xffff
    ensures Typed(Int16, Num(n)) && Encodable(Int16, Num(n)) && Encoding(Int16, Num(n)) == [n / 0x100, n % 0x100]
  {
    Pow256Values();
    BigEndian2(n);
  }

  lemma Int32Bytes(n: nat)
    requires n <= 0xffff_ffff
    ensures Typed(Int32, Num(n)) && Encodable(Int32, Num(n))
    ensures Encoding(Int32, Num(n)) == HighFirst4(n)
  {
    Pow256Values();
    Stored4(n);
  }

  lemma Int64Bytes(n: nat)
    requires n <= 0xffff_ffff_ffff_ffff
    ensures Typed(Int64, Num(n)) && Encodable(Int64, Num(n))
    ensures Encoding(Int64, Num(n)) == HighFirst8(n)
  {
    hide BigEndian, HighFirst8;
    Pow256Values();
    Stored8(n);
  }

  lemma Int16VBytes(n: nat)
    requires n <= 0xffff
    ensures Typed(Int16V, Num(n)) && Encodable(Int16V, Num(n))
    ensures Encoding(Int16V, Num(n)) == if n < 255 then [n] else [255, n / 0x100, n % 0x100]
  {
    Pow256Values();
    BigEndian2(n);
  }

  lemma Int32VBytes(n: nat)
    requires n <= 0xffff_ffff
    ensures Typed(Int32V, Num(n)) && Encodable(Int32V, Num(n))
    ensures Encoding(Int32V, Num(n)) == Compact32(n)
  {
    Pow256Values();
    BigEndian2(n);
    Stored4(n);
  }

  lemma Int64VBytes(n: nat)
    requires n <= 0xffff_ffff_ffff_ffff
    ensures Typed(Int64V, Num(n)) && Encodable(Int64V, Num(n))
    ensures Encoding(Int64V, Num(n)) ==
      if n < 253 then [n]
      else if n <= 0xffff then [253, n / 0x100, n % 0x100]
      else if n <= 0xffff_ffff then [254] + HighFirst4(n)
      else [255] + HighFirst8(n)
  {
    hide BigEndian, HighFirst4, HighFirst8;
    Pow256Values();
    BigEndian2(n);
    if n <= 0xffff_ffff { Stored4(n); }
    Stored8(n);
  }

  // ---------------------------------------------------- integers as read

  /** Two, four and eight bytes from `i` on, most significant first. */
  function Two(bs: seq<byte>, i: nat): nat
    requires i + 2 <= |bs|
  {
    Wide(bs[i]) * 0x100 + Wide(bs[i + 1])
  }

  function Four(bs: seq<byte>, i: nat): nat
    requires i + 4 <= |bs|
  {
    Wide(bs[i]) * 0x100_0000 + Wide(bs[i + 1]) * 0x1_0000 + Wide(bs[i + 2]) * 0x100 + Wide(bs[i + 3])
  }

  function Eight(bs: seq<byte>, i: nat): nat
    requires i + 8 <= |bs|
  {
    Wide(bs[i]) * 0x100_0000_0000_0000 + Wide(bs[i + 1]) * 0x1_0000_0000_0000
    + Wide(bs[i + 2]) * 0x100_0000_0000 + Wide(bs[i + 3]) * 0x1_0000_0000
    + Wide(bs[i + 4]) * 0x100_0000 + Wide(bs[i + 5]) * 0x1_0000 + Wide(bs[i + 6]) * 0x100 + Wide(bs[i + 7])
  }

  /** A compact 32-bit number at the front of a byte string, and the bytes it takes. */
  function Compact32At(bs: seq<byte>): Outcome<nat>
  {
    if |bs| < 1 then Refused
    else if bs[0] < 254 then Done(bs[0], 1)
    else if bs[0] == 254 then if |bs| < 3 then Refused else Done(Two(bs, 1), 3)
    else if |bs| < 5 then Refused else Done(Four(bs, 1), 5)
  }

  lemma FixedReads(bs: seq<byte>, i: nat)
    requires i <= |bs|
    ensures ReadFixed(bs[i..], 1) == if |bs| < i + 1 then Refused else Done(Wide(bs[i]), 1)
    ensures ReadFixed(bs[i..], 2) == if |bs| < i + 2 then Refused else Done(Two(bs, i), 2)
    ensures ReadFixed(bs[i..], 4) == if |bs| < i + 4 then Refused else Done(Four(bs, i), 4)
    ensures ReadFixed(bs[i..], 8) == if |bs| < i + 8 then Refused else Done(Eight(bs, i), 8)
  {
    var s := bs[i..];
    if |s| >= 1 { Number1(s[..1]); }
    if |s| >= 2 { Number2(s[..2]); }
    if |s| >= 4 { Number4(s[..4]); }
    if |s| >= 8 { Number8(s[..8]); }
  }

  lemma FixedReading(bs: seq<byte>)
    ensures Decode(Int8, bs) == if |bs| < 1 then Refused else Done(Num(bs[0]), 1)
    ensures Decode(Int16, bs) == if |bs| < 2 then Refused else Done(Num(Two(bs, 0)), 2)
    ensures Decode(Int32, bs) == if |bs| < 4 then Refused else Done(Num(Four(bs, 0)), 4)
    ensures Decode(Int64, bs) == if |bs| < 8 then Refused else Done(Num(Eight(bs, 0)), 8)
  {
    FixedReads(bs, 0);
    assert bs[0..] == bs;
  }

  lemma Int16VReading(bs: seq<byte>)
    ensures Decode(Int16V, bs) ==
      if |bs| < 1 then Refused
      else if bs[0] < 255 then Done(Num(bs[0]), 1)
      else if |bs| < 3 then Refused else Done(Num(Two(bs, 1)), 3)
  {
    if |bs| > 0 { FixedReads(bs, 1); }
  }

  lemma Int32VReading(bs: seq<byte>)
    ensures var r := Compact32At(bs);
      Decode(Int32V, bs) == if r.Done? then Done(Num(r.value), r.used) else Refused
  {
    PrefixReading(bs);
  }

  lemma Int64VReading(bs: seq<byte>)
    ensures Decode(Int64V, bs) ==
      if |bs| < 1 then Refused
      else if bs[0] < 253 then Done(Num(bs[0]), 1)
      else if bs[0] == 253 then if |bs| < 3 then Refused else Done(Num(Two(bs, 1)), 3)
      else if bs[0] == 254 then if |bs| < 5 then Refused else Done(Num(Four(bs, 1)), 5)
      else if |bs| < 9 then Refused else Done(Num(Eight(bs, 1)), 9)
  {
    if |bs| > 0 { FixedReads(bs, 1); }
  }

  // --------------------------------------------- enums, strings and lists

  lemma EnumFormat(n: nat, bs: seq<byte>)
    requires n <= 0xffff_ffff
    ensures TypedField(EnumField, Num(n)) && FieldEncoding(EnumField, Num(n)) == Compact32(n)
    ensures DecodeField(EnumField, bs) == Decode(Int32V, bs)
  {
    Int32VBytes(n);
  }

  /** Strings of up to 2^32 - 1 bytes, and no longer ones, have an encoding: length, bytes. */
  lemma StringBytes(text: seq<byte>)
    ensures Encodable(Str, Text(text)) <==> |text| <= 0xffff_ffff
    ensures |text| <= 0xffff_ffff ==> Encoding(Str, Text(text)) == Compact32(|text|) + text
  {
    if |text| <= 0xffff_ffff { Int32VBytes(|text|); }
  }

  lemma PrefixReading(bs: seq<byte>)
    ensures ReadInt(Int32V, bs) == Compact32At(bs)
  {
    if |bs| > 0 { FixedReads(bs, 1); }
  }

  lemma StringReading(bs: seq<byte>)
    ensures var n := Compact32At(bs);
      Decode(Str, bs) ==
        if !n.Done? || |bs| < n.used + n.value then Refused
        else Done(Text(bs[n.used..n.used + n.value]), n.used + n.value)
  {
    PrefixReading(bs);
  }

  /** A list is its length and its elements; like a string it has at most 2^32 - 1 of them. */
  lemma ListFormat(s: Schema, vs: seq<Value>)
    requires TypedItems(s, vs)
    ensures TypedField(ListOf(s), Many(vs))
    ensures EncodableField(ListOf(s), Many(vs)) <==> |vs| <= 0xffff_ffff && EncodableItems(s, vs)
    ensures |vs| <= 0xffff_ffff ==>
      FieldEncoding(ListOf(s), Many(vs)) == Compact32(|vs|) + ItemsEncoding(s, vs)
  {
    if |vs| <= 0xffff_ffff { Int32VBytes(|vs|); }
  }

  lemma ListReading(s: Schema, bs: seq<byte>)
    ensures var n := Compact32At(bs);
      DecodeField(ListOf(s), bs) ==
        if !n.Done? then Refused
        else
          var items := DecodeItems(s, n.value, bs[n.used..]);
          if items.Done? then Done(Many(items.value), n.used + items.used) else Stop(items)
  {
    PrefixReading(bs);
  }

  // ------------------------------------------------------- order of parts

  lemma OneItem(s: Schema, v: Value)
    requires Typed(s, v)
    ensures TypedItems(s, [v]) && ItemsEncoding(s, [v]) == Encoding(s, v)
    ensures EncodableItems(s, [v]) <==> Encodable(s, v)
  {
    assert [v][..0] == [];
    assert TypedItems(s, [v][..0]) && ItemsEncoding(s, [v][..0]) == [];
  }

  /** Elements are laid out in list order. */
  lemma {:induction false} ItemsInOrder(s: Schema, vs: seq<Value>, ws: seq<Value>)
    requires TypedItems(s, vs) && TypedItems(s, ws)
    ensures TypedItems(s, vs + ws)
    ensures ItemsEncoding(s, vs + ws) == ItemsEncoding(s, vs) + ItemsEncoding(s, ws)
    ensures EncodableItems(s, vs + ws) <==> EncodableItems(s, vs) && EncodableItems(s, ws)
    decreases |ws|
  {
    hide Typed, Encoding, Encodable;
    if ws == [] {
      assert vs + ws == vs;
    } else {
      var front, last := ws[..|ws| - 1], ws[|ws| - 1];
      ItemsInOrder(s, vs, front);
      assert (vs + ws)[..|vs + ws| - 1] == vs + front;
    }
  }

  lemma OneField(f: Field, v: Value)
    requires TypedField(f, v)
    ensures TypedFields([f], [v]) && FieldsEncoding([f], [v]) == FieldEncoding(f, v)
    ensures EncodableFields([f], [v]) <==> EncodableField(f, v)
  {
    assert [f][1..] == [] && [v][1..] == [];
    assert TypedFields([f][1..], [v][1..]) && FieldsEncoding([f][1..], [v][1..]) == [];
  }

  /** The members of a struct are laid out in the order of its body. */
  lemma {:induction false} FieldsInOrder(fs: seq<Field>, vs: seq<Value>, gs: seq<Field>, ws: seq<Value>)
    requires TypedFields(fs, vs) && TypedFields(gs, ws)
    ensures TypedFields(fs + gs, vs + ws)
    ensures FieldsEncoding(fs + gs, vs + ws) == FieldsEncoding(fs, vs) + FieldsEncoding(gs, ws)
    ensures EncodableFields(fs + gs, vs + ws) <==> EncodableFields(fs, vs) && EncodableFields(gs, ws)
    decreases |fs|
  {
    hide TypedField, FieldEncoding, EncodableField;
    if fs == [] {
      assert fs + gs == gs && vs + ws == ws;
    } else {
      FieldsInOrder(fs[1..], vs[1..], gs, ws);
      assert (fs + gs)[1..] == fs[1..] + gs && (vs + ws)[1..] == vs[1..] + ws;
    }
  }

  /** A struct adds nothing to its members, and carries at most 2^31 - 1 bytes. */
  lemma StructFormat(fs: seq<Field>, vs: seq<Value>)
    requires TypedFields(fs, vs)
    ensures Typed(Struct(fs), Rec(vs)) && Encoding(Struct(fs), Rec(vs)) == FieldsEncoding(fs, vs)
    ensures Encodable(Struct(fs), Rec(vs)) <==>
      EncodableFields(fs, vs) && |FieldsEncoding(fs, vs)| <= 0x7fff_ffff
  {
  }
}
