/** What the exchange format guarantees about every schema and every value. */
module CodecProofs {
  import opened ByteStrings
  import opened Codec

  // ------------------------------------------------------------- integers

  lemma ReadFixedOf(n: nat, k: nat, tail: seq<byte>)
    requires n < Pow256(k)
    ensures ReadFixed(BigEndian(n, k) + tail, k) == Done(n, k)
  {
    NumberOfBigEndian(n, k);
    assert (BigEndian(n, k) + tail)[..k] == BigEndian(n, k);
  }

  lemma ReadIntOfEncoding(s: Schema, n: nat, tail: seq<byte>)
    requires IsInteger(s) && n < Pow256(Width(s))
    ensures ReadInt(s, IntEncoding(s, n) + tail) == Done(n, |IntEncoding(s, n)|)
  {
    if !IsVariable(s) {
      ReadFixedOf(n, Width(s), tail);
    } else if Extra(s, n) > 0 {
      ExtraSuffices(s, n);
      ReadFixedOf(n, Extra(s, n), tail);
      assert (IntEncoding(s, n) + tail)[1..] == BigEndian(n, Extra(s, n)) + tail;
    }
  }

  lemma ExtraSuffices(s: Schema, n: nat)
    requires IsVariable(s) && n < Pow256(Width(s)) && Extra(s, n) > 0
    ensures n < Pow256(Extra(s, n))
  {
    Pow256Values();
  }

  /** What is read fits its type, and the canonical form of it is no longer. */
  lemma ReadIntIsShortest(s: Schema, bs: seq<byte>)
    requires IsInteger(s)
    ensures ReadInt(s, bs).Done? ==>
      var r := ReadInt(s, bs);
      r.value < Pow256(Width(s)) && |IntEncoding(s, r.value)| <= r.used
  {
    Pow256Values();
    if ReadInt(s, bs).Done? {
      if !IsVariable(s) {
        BigEndianOfNumber(bs[..Width(s)]);
      } else if Escape(s, bs[0]) > 0 {
        BigEndianOfNumber(bs[1..][..Escape(s, bs[0])]);
      }
    }
  }

  lemma ReadIntExtends(s: Schema, bs: seq<byte>, tail: seq<byte>)
    requires IsInteger(s) && ReadInt(s, bs).Done?
    ensures ReadInt(s, bs + tail) == ReadInt(s, bs)
  {
    if !IsVariable(s) {
      assert (bs + tail)[..Width(s)] == bs[..Width(s)];
    } else {
      var k := Escape(s, bs[0]);
      assert (bs + tail)[1..][..k] == bs[1..][..k];
    }
  }

  // ----------------------------------------------------------- round trip

  /** Decoding an encoding gives the value back and consumes exactly the encoding. */
  lemma {:induction false} RoundTrip(s: Schema, v: Value, tail: seq<byte>)
    requires Typed(s, v) && Encodable(s, v)
    ensures Decode(s, Encoding(s, v) + tail) == Done(v, |Encoding(s, v)|)
    decreases s, 0
  {
    Pow256Values();
    match s {
      case Str =>
        ReadIntOfEncoding(Int32V, |v.bytes|, v.bytes + tail);
        var e := LengthEncoding(|v.bytes|);
        assert Encoding(s, v) + tail == e + (v.bytes + tail);
        assert (e + (v.bytes + tail))[|e|..|e| + |v.bytes|] == v.bytes;
      case Struct(fs) => FieldsRoundTrip(fs, v.members, tail);
      case _ => ReadIntOfEncoding(s, v.n, tail);
    }
  }

  lemma {:induction false} FieldRoundTrip(f: Field, v: Value, tail: seq<byte>)
    requires TypedField(f, v) && EncodableField(f, v)
    ensures DecodeField(f, FieldEncoding(f, v) + tail) == Done(v, |FieldEncoding(f, v)|)
    decreases f, 0
  {
    match f {
      case Single(s) => RoundTrip(s, v, tail);
      case EnumField => ReadIntOfEncoding(Int32V, v.n, tail);
      case ListOf(s) =>
        ListRoundTrip(s, v.items, tail);
        ListAsField(s, v.items, FieldEncoding(f, v) + tail);
    }
  }

  lemma ListAsField(s: Schema, vs: seq<Value>, bs: seq<byte>)
    requires var n := ReadInt(Int32V, bs);
      n.Done? && n.value == |vs| && DecodeItems(s, |vs|, bs[n.used..]).Done?
    ensures var n := ReadInt(Int32V, bs);
      var items := DecodeItems(s, |vs|, bs[n.used..]);
      DecodeField(ListOf(s), bs) == Done(Many(items.value), n.used + items.used)
  {
  }

  lemma {:induction false} ListRoundTrip(s: Schema, vs: seq<Value>, tail: seq<byte>)
    requires TypedItems(s, vs) && EncodableItems(s, vs) && |vs| <= MAX32
    ensures var e := LengthEncoding(|vs|);
      var bs := FieldEncoding(ListOf(s), Many(vs)) + tail;
      && ReadInt(Int32V, bs) == Done(|vs|, |e|)
      && DecodeItems(s, |vs|, bs[|e|..]) == Done(vs, |ItemsEncoding(s, vs)|)
    decreases s, 2
  {
    var e, items := LengthEncoding(|vs|), ItemsEncoding(s, vs);
    assert |vs| < Pow256(4) by { Pow256Values(); }
    ReadIntOfEncoding(Int32V, |vs|, items + tail);
    ItemsRoundTrip(s, vs, tail);
    Splice(e, items, tail);
  }

  lemma {:induction false} FieldsRoundTrip(fs: seq<Field>, vs: seq<Value>, tail: seq<byte>)
    requires TypedFields(fs, vs) && EncodableFields(fs, vs)
    ensures DecodeFields(fs, FieldsEncoding(fs, vs) + tail) == Done(vs, |FieldsEncoding(fs, vs)|)
    decreases fs, 0
  {
    if fs != [] {
      var e, rest := FieldEncoding(fs[0], vs[0]), FieldsEncoding(fs[1..], vs[1..]);
      FieldRoundTrip(fs[0], vs[0], rest + tail);
      FieldsRoundTrip(fs[1..], vs[1..], tail);
      Splice(e, rest, tail);
      FieldsFollow(fs, e + (rest + tail), vs, |e|, |rest|);
    }
  }

  lemma {:induction false} ItemsRoundTrip(s: Schema, vs: seq<Value>, tail: seq<byte>)
    requires TypedItems(s, vs) && EncodableItems(s, vs)
    ensures DecodeItems(s, |vs|, ItemsEncoding(s, vs) + tail) == Done(vs, |ItemsEncoding(s, vs)|)
    decreases s, 1, vs
  {
    hide Decode, ReadInt, Encoding, Encodable, Typed;
    if vs != [] {
      var front, last := vs[..|vs| - 1], vs[|vs| - 1];
      var sofar, e := ItemsEncoding(s, front), Encoding(s, last);
      ItemsRoundTrip(s, front, e + tail);
      RoundTrip(s, last, tail);
      Splice(sofar, e, tail);
      ItemsAppend(s, sofar + (e + tail), vs, |sofar|, |e|);
    }
  }

  lemma Splice(e: seq<byte>, rest: seq<byte>, tail: seq<byte>)
    ensures (e + rest) + tail == e + (rest + tail)
    ensures (e + (rest + tail))[|e|..] == rest + tail
  {
  }

  lemma FieldsFollow(fs: seq<Field>, bs: seq<byte>, vs: seq<Value>, k: nat, more: nat)
    requires fs != [] && vs != [] && k <= |bs|
    requires DecodeField(fs[0], bs) == Done(vs[0], k)
    requires DecodeFields(fs[1..], bs[k..]) == Done(vs[1..], more)
    ensures DecodeFields(fs, bs) == Done(vs, k + more)
  {
    assert [vs[0]] + vs[1..] == vs;
  }

  lemma ItemsAppend(s: Schema, bs: seq<byte>, vs: seq<Value>, k: nat, more: nat)
    requires vs != [] && k <= |bs|
    requires DecodeItems(s, |vs| - 1, bs) == Done(vs[..|vs| - 1], k)
    requires Decode(s, bs[k..]) == Done(vs[|vs| - 1], more)
    ensures DecodeItems(s, |vs|, bs) == Done(vs, k + more)
  {
    FrontAndLast(vs);
  }

  lemma FrontAndLast(vs: seq<Value>)
    requires vs != []
    ensures vs[..|vs| - 1] + [vs[|vs| - 1]] == vs
  {
  }

  lemma ItemAppended(s: Schema, vs: seq<Value>, v: Value)
    requires TypedItems(s, vs) && Typed(s, v)
    ensures TypedItems(s, vs + [v]) && ItemsEncoding(s, vs + [v]) == ItemsEncoding(s, vs) + Encoding(s, v)
    ensures EncodableItems(s, vs + [v]) <==> EncodableItems(s, vs) && Encodable(s, v)
  {
    hide Typed, Encodable, Encoding;
    assert (vs + [v])[..|vs|] == vs;
  }

  // -------------------------------------------------- shortest encoding

  /** Whatever padded form was read, the value has a canonical encoding and it is no
      longer than the bytes the decoder consumed. */
  lemma {:induction false} ShortestEncoding(s: Schema, bs: seq<byte>)
    ensures Decode(s, bs).Done? ==>
      var r := Decode(s, bs);
      Typed(s, r.value) && Encodable(s, r.value) && |Encoding(s, r.value)| <= r.used
    decreases s, 0
  {
    Pow256Values();
    match s {
      case Str => ReadIntIsShortest(Int32V, bs);
      case Struct(fs) => FieldsShortest(fs, bs);
      case _ => ReadIntIsShortest(s, bs);
    }
  }

  lemma {:induction false} FieldShortest(f: Field, bs: seq<byte>)
    ensures DecodeField(f, bs).Done? ==>
      var r := DecodeField(f, bs);
      TypedField(f, r.value) && EncodableField(f, r.value) && |FieldEncoding(f, r.value)| <= r.used
    decreases f, 0
  {
    Pow256Values();
    match f {
      case Single(s) => ShortestEncoding(s, bs);
      case EnumField => ReadIntIsShortest(Int32V, bs);
      case ListOf(s) =>
        ReadIntIsShortest(Int32V, bs);
        if ReadInt(Int32V, bs).Done? {
          ItemsShortest(s, ReadInt(Int32V, bs).value, bs[ReadInt(Int32V, bs).used..]);
        }
    }
  }

  lemma {:induction false} FieldsShortest(fs: seq<Field>, bs: seq<byte>)
    ensures DecodeFields(fs, bs).Done? ==>
      var r := DecodeFields(fs, bs);
      TypedFields(fs, r.value) && EncodableFields(fs, r.value) && |FieldsEncoding(fs, r.value)| <= r.used
    decreases fs, 0
  {
    if fs != [] && DecodeFields(fs, bs).Done? {
      FieldShortest(fs[0], bs);
      var first := DecodeField(fs[0], bs);
      FieldsShortest(fs[1..], bs[first.used..]);
      var r := DecodeFields(fs, bs);
      assert r.value[1..] == DecodeFields(fs[1..], bs[first.used..]).value;
    }
  }

  lemma {:induction false} ItemsShortest(s: Schema, n: nat, bs: seq<byte>)
    ensures DecodeItems(s, n, bs).Done? ==>
      var r := DecodeItems(s, n, bs);
      TypedItems(s, r.value) && EncodableItems(s, r.value) && |ItemsEncoding(s, r.value)| <= r.used
    decreases s, 1, n
  {
    hide Decode, ReadInt, Typed, Encodable, Encoding;
    if n > 0 && DecodeItems(s, n, bs).Done? {
      ItemsShortest(s, n - 1, bs);
      var sofar := DecodeItems(s, n - 1, bs);
      var last := Decode(s, bs[sofar.used..]);
      ShortestEncoding(s, bs[sofar.used..]);
      if last.Done? { ItemAppended(s, sofar.value, last.value); }
    }
  }

  // ------------------------------------------------- truncation and growth

  /** Bytes appended to the input change nothing about a decode that did not ask for them. */
  lemma {:induction false} DecodeExtends(s: Schema, bs: seq<byte>, tail: seq<byte>)
    requires !Decode(s, bs).Refused?
    ensures Decode(s, bs + tail) == Decode(s, bs)
    decreases s, 0
  {
    match s {
      case Str =>
        ReadIntExtends(Int32V, bs, tail);
        var n := ReadInt(Int32V, bs);
        assert (bs + tail)[n.used..n.used + n.value] == bs[n.used..n.used + n.value];
      case Struct(fs) => FieldsExtend(fs, bs, tail);
      case _ => ReadIntExtends(s, bs, tail);
    }
  }

  lemma {:induction false} FieldExtends(f: Field, bs: seq<byte>, tail: seq<byte>)
    requires !DecodeField(f, bs).Refused?
    ensures DecodeField(f, bs + tail) == DecodeField(f, bs)
    decreases f, 0
  {
    match f {
      case Single(s) => DecodeExtends(s, bs, tail);
      case EnumField => ReadIntExtends(Int32V, bs, tail);
      case ListOf(s) =>
        ReadIntExtends(Int32V, bs, tail);
        var n := ReadInt(Int32V, bs);
        ItemsExtend(s, n.value, bs[n.used..], tail);
        assert (bs + tail)[n.used..] == bs[n.used..] + tail;
    }
  }

  lemma {:induction false} FieldsExtend(fs: seq<Field>, bs: seq<byte>, tail: seq<byte>)
    requires !DecodeFields(fs, bs).Refused?
    ensures DecodeFields(fs, bs + tail) == DecodeFields(fs, bs)
    decreases fs, 0
  {
    if fs != [] {
      FieldExtends(fs[0], bs, tail);
      var first := DecodeField(fs[0], bs);
      if first.Done? {
        FieldsExtend(fs[1..], bs[first.used..], tail);
        assert (bs + tail)[first.used..] == bs[first.used..] + tail;
      }
    }
  }

  lemma {:induction false} ItemsExtend(s: Schema, n: nat, bs: seq<byte>, tail: seq<byte>)
    requires !DecodeItems(s, n, bs).Refused?
    ensures DecodeItems(s, n, bs + tail) == DecodeItems(s, n, bs)
    decreases s, 1, n
  {
    hide Decode, ReadInt;
    if n > 0 {
      ItemsExtend(s, n - 1, bs, tail);
      var sofar := DecodeItems(s, n - 1, bs);
      if sofar.Done? {
        DecodeExtends(s, bs[sofar.used..], tail);
        assert (bs + tail)[sofar.used..] == bs[sofar.used..] + tail;
      }
      SameItems(s, n, bs, bs + tail);
    }
  }

  /** One round of the list loop looks at the elements before it and at its own. */
  lemma SameItems(s: Schema, n: nat, bs: seq<byte>, bs': seq<byte>)
    requires n > 0 && DecodeItems(s, n - 1, bs') == DecodeItems(s, n - 1, bs)
    requires var sofar := DecodeItems(s, n - 1, bs);
      sofar.Done? ==> sofar.used <= |bs'| && Decode(s, bs'[sofar.used..]) == Decode(s, bs[sofar.used..])
    ensures DecodeItems(s, n, bs') == DecodeItems(s, n, bs)
  {
    hide Decode, ReadInt;
  }

  /** A message cut short anywhere is refused, never misread. */
  lemma TruncatedIsRefused(s: Schema, v: Value, k: nat)
    requires Typed(s, v) && Encodable(s, v) && k < |Encoding(s, v)|
    ensures Decode(s, Encoding(s, v)[..k]).Refused?
  {
    var e := Encoding(s, v);
    RoundTrip(s, v, []);
    assert e + [] == e && e[..k] + e[k..] == e;
    if !Decode(s, e[..k]).Refused? {
      DecodeExtends(s, e[..k], e[k..]);
    }
  }

  /** No encoding is a prefix of another: messages can be laid end to end. */
  lemma PrefixFree(s: Schema, v: Value, w: Value)
    requires Typed(s, v) && Encodable(s, v) && Typed(s, w) && Encodable(s, w)
    requires Encoding(s, v) <= Encoding(s, w)
    ensures v == w
  {
    RoundTrip(s, v, Encoding(s, w)[|Encoding(s, v)|..]);
    RoundTrip(s, w, []);
    assert Encoding(s, v) + Encoding(s, w)[|Encoding(s, v)|..] == Encoding(s, w) == Encoding(s, w) + [];
  }

  /** Re-encoding a decoded message normalises it: the second decode agrees with the first. */
  lemma Normalises(s: Schema, bs: seq<byte>, tail: seq<byte>)
    requires Decode(s, bs).Done?
    ensures var v := Decode(s, bs).value;
      Typed(s, v) && Encodable(s, v) && Decode(s, Encoding(s, v) + tail) == Done(v, |Encoding(s, v)|)
  {
    ShortestEncoding(s, bs);
    RoundTrip(s, Decode(s, bs).value, tail);
  }

  // ------------------------------------------------------- READ_ENUM_LIST

  /** READ_ENUM_LIST pushes its own uninitialised `v`: READ_ENUM reads into another one of
      the same name. `junk(i)` is what the outer variable held in round i. */
  function Garbage(n: nat, junk: nat -> nat): (vs: seq<Value>)
    ensures |vs| == n && forall i :: 0 <= i < n ==> vs[i] == Num(junk(i))
  {
    seq(n, i requires 0 <= i < n => Num(junk(i)))
  }

  function DecodeEnumList(bs: seq<byte>, junk: nat -> nat): Outcome<Value>
  {
    match ReadInt(Int32V, bs)
    case Done(n, used) =>
      var items := DecodeItems(Int32V, n, bs[used..]);
      if items.Done? then Done(Many(Garbage(n, junk)), used + items.used) else Stop(items)
    case _ => Refused
  }

  ghost predicate Holds32Bits(junk: nat -> nat) { forall i: nat :: junk(i) <= MAX32 }

  /** Hence the round trip of an enum list holds, whatever the memory held, for the empty
      list and for no other; the bytes consumed are right in every case. */
  lemma EnumListRoundTrip(vs: seq<Value>, tail: seq<byte>)
    requires TypedItems(Int32V, vs) && |vs| <= MAX32
    ensures var e := FieldEncoding(ListOf(Int32V), Many(vs));
      && (forall junk :: DecodeEnumList(e + tail, junk).Done?
                         && DecodeEnumList(e + tail, junk).used == |e|)
      && ((forall junk | Holds32Bits(junk) :: DecodeEnumList(e + tail, junk).value == Many(vs))
          <==> vs == [])
  {
    hide DecodeEnumList, FieldEncoding;
    var e := FieldEncoding(ListOf(Int32V), Many(vs));
    forall junk: nat -> nat
      ensures DecodeEnumList(e + tail, junk) == Done(Many(Garbage(|vs|, junk)), |e|)
    {
      EnumListReadsGarbage(vs, tail, junk);
    }
    if vs != [] {
      var last := |vs| - 1;
      var junk := (i: nat) => if vs[last].n == 0 then 1 else 0;
      assert Holds32Bits(junk) && Garbage(|vs|, junk)[last] == Num(junk(last)) != vs[last];
    }
  }

  lemma EnumListReadsGarbage(vs: seq<Value>, tail: seq<byte>, junk: nat -> nat)
    requires TypedItems(Int32V, vs) && |vs| <= MAX32
    ensures var e := FieldEncoding(ListOf(Int32V), Many(vs));
      DecodeEnumList(e + tail, junk) == Done(Many(Garbage(|vs|, junk)), |e|)
  {
    EncodableInts(vs);
    ListRoundTrip(Int32V, vs, tail);
  }

  lemma {:induction false} EncodableInts(vs: seq<Value>)
    requires TypedItems(Int32V, vs)
    ensures EncodableItems(Int32V, vs)
  {
    if vs != [] { EncodableInts(vs[..|vs| - 1]); }
  }
}
