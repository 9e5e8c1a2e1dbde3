/** The wire format of the exchange macros: what each READ_ macro makes of a byte
    string and what each WRITE_ macro is meant to produce. A struct is the list of the
    macros its generated `encode`/`decode` body runs. */
module Codec {
  import opened ByteStrings

  /** The arguments a one-argument macro can stand for. */
  datatype Schema =
    | Int8 | Int16 | Int32 | Int64
    | Int16V | Int32V | Int64V
    | Str
    | Struct(fields: seq<Field>)

  /** One line of a struct body: READ_x(v), READ_ENUM(v, E) or READ_LIST(v, READ_x, T). */
  datatype Field = Single(s: Schema) | EnumField | ListOf(elem: Schema)

  /** Integers are bit patterns of their C type; enums are 32-bit patterns. */
  datatype Value =
    | Num(n: nat)
    | Text(bytes: seq<byte>)
    | Rec(members: seq<Value>)
    | Many(items: seq<Value>)

  /** How a macro sequence ends: with a value and a byte count, with `return -1`, or with a
      cursor moved by a struct size that did not survive its conversion to `int`. */
  datatype Outcome<+T> = Done(value: T, used: nat) | Refused | Lost

  // ---------------------------------------------------------------- integers

  predicate IsVariable(s: Schema) { s.Int16V? || s.Int32V? || s.Int64V? }

  predicate IsInteger(s: Schema) { !s.Str? && !s.Struct? }

  /** Bytes of the C type behind an integer macro. */
  function Width(s: Schema): nat
    requires IsInteger(s)
  {
    match s
    case Int8 => 1
    case Int16 => 2
    case Int16V => 2
    case Int32 => 4
    case Int32V => 4
    case _ => 8
  }

  /** Bytes that follow the first byte `tag` of a variable-length integer. */
  function Escape(s: Schema, tag: nat): nat
    requires IsVariable(s)
  {
    match s
    case Int16V => if tag < 255 then 0 else 2
    case Int32V => if tag < 254 then 0 else if tag == 254 then 2 else 4
    case _ => if tag < 253 then 0 else if tag == 253 then 2 else if tag == 254 then 4 else 8
  }

  /** Bytes the encoder spends after the first one. */
  function Extra(s: Schema, n: nat): nat
    requires IsVariable(s)
  {
    match s
    case Int16V => if n < 255 then 0 else 2
    case Int32V => if n < 254 then 0 else if n <= MAX16 then 2 else 4
    case _ => if n < 253 then 0 else if n <= MAX16 then 2 else if n <= MAX32 then 4 else 8
  }

  function Tag(s: Schema, n: nat): (tag: byte)
    requires IsVariable(s) && n < Pow256(Width(s))
    ensures Escape(s, tag) == Extra(s, n)
    ensures Extra(s, n) == 0 ==> tag == n
  {
    if Extra(s, n) == 0 then n
    else if s.Int16V? then 255
    else if s.Int32V? then if n <= MAX16 then 254 else 255
    else if n <= MAX16 then 253 else if n <= MAX32 then 254 else 255
  }

  function IntEncoding(s: Schema, n: nat): seq<byte>
    requires IsInteger(s) && n < Pow256(Width(s))
  {
    if IsVariable(s) then [Tag(s, n)] + BigEndian(n, Extra(s, n)) else BigEndian(n, Width(s))
  }

  function ReadFixed(bs: seq<byte>, k: nat): Outcome<nat>
  {
    if |bs| < k then Refused else Done(Number(bs[..k]), k)
  }

  function ReadInt(s: Schema, bs: seq<byte>): (r: Outcome<nat>)
    requires IsInteger(s)
    ensures r.Done? ==> 0 < r.used <= |bs|
    ensures !r.Lost?
  {
    if !IsVariable(s) then ReadFixed(bs, Width(s))
    else if |bs| < 1 then Refused
    else
      var more := Escape(s, bs[0]);
      if more == 0 then Done(bs[0], 1) else
      match ReadFixed(bs[1..], more)
      case Done(n, used) => Done(n, used + 1)
      case _ => Refused
  }

  // ----------------------------------------------------------- typed values

  predicate Typed(s: Schema, v: Value)
    decreases s, 0
  {
    match s
    case Str => v.Text?
    case Struct(fs) => v.Rec? && TypedFields(fs, v.members)
    case _ => v.Num? && v.n < Pow256(Width(s))
  }

  predicate TypedField(f: Field, v: Value)
    decreases f, 0
  {
    match f
    case Single(s) => Typed(s, v)
    case EnumField => v.Num? && v.n < Pow256(4)
    case ListOf(s) => v.Many? && TypedItems(s, v.items)
  }

  predicate TypedFields(fs: seq<Field>, vs: seq<Value>)
    decreases fs, 0
  {
    |fs| == |vs| && (fs == [] || (TypedField(fs[0], vs[0]) && TypedFields(fs[1..], vs[1..])))
  }

  predicate TypedItems(s: Schema, vs: seq<Value>)
    decreases s, 1, vs
  {
    vs == [] || (TypedItems(s, vs[..|vs| - 1]) && Typed(s, vs[|vs| - 1]))
  }

  // --------------------------------------------------------------- encoding

  /** A length prefix is a 32-bit variable integer; longer lengths have none. */
  function LengthEncoding(n: nat): seq<byte>
  {
    Pow256Values();
    if n <= MAX32 then IntEncoding(Int32V, n) else []
  }

  function Encoding(s: Schema, v: Value): seq<byte>
    requires Typed(s, v)
    decreases s, 0
  {
    match s
    case Str => LengthEncoding(|v.bytes|) + v.bytes
    case Struct(fs) => FieldsEncoding(fs, v.members)
    case _ => IntEncoding(s, v.n)
  }

  function FieldEncoding(f: Field, v: Value): seq<byte>
    requires TypedField(f, v)
    decreases f, 0
  {
    match f
    case Single(s) => Encoding(s, v)
    case EnumField => IntEncoding(Int32V, v.n)
    case ListOf(s) => LengthEncoding(|v.items|) + ItemsEncoding(s, v.items)
  }

  function FieldsEncoding(fs: seq<Field>, vs: seq<Value>): seq<byte>
    requires TypedFields(fs, vs)
    decreases fs, 0
  {
    if fs == [] then [] else FieldEncoding(fs[0], vs[0]) + FieldsEncoding(fs[1..], vs[1..])
  }

  function ItemsEncoding(s: Schema, vs: seq<Value>): seq<byte>
    requires TypedItems(s, vs)
    decreases s, 1, vs
  {
    if vs == [] then [] else ItemsEncoding(s, vs[..|vs| - 1]) + Encoding(s, vs[|vs| - 1])
  }

  /** The values the format can carry: no length above 32 bits, and no struct whose
      size the `int` result of `encode` cannot hold. */
  predicate Encodable(s: Schema, v: Value)
    requires Typed(s, v)
    decreases s, 0
  {
    match s
    case Str => |v.bytes| <= MAX32
    case Struct(fs) => EncodableFields(fs, v.members) && |FieldsEncoding(fs, v.members)| <= INT_MAX
    case _ => true
  }

  predicate EncodableField(f: Field, v: Value)
    requires TypedField(f, v)
    decreases f, 0
  {
    match f
    case Single(s) => Encodable(s, v)
    case EnumField => true
    case ListOf(s) => |v.items| <= MAX32 && EncodableItems(s, v.items)
  }

  predicate EncodableFields(fs: seq<Field>, vs: seq<Value>)
    requires TypedFields(fs, vs)
    decreases fs, 0
  {
    fs == [] || (EncodableField(fs[0], vs[0]) && EncodableFields(fs[1..], vs[1..]))
  }

  predicate EncodableItems(s: Schema, vs: seq<Value>)
    requires TypedItems(s, vs)
    decreases s, 1, vs
  {
    vs == [] || (EncodableItems(s, vs[..|vs| - 1]) && Encodable(s, vs[|vs| - 1]))
  }

  // --------------------------------------------------------------- decoding

  /** READ_STRUCT looks at the nested byte count only through an `int`. */
  function StructOutcome(r: Outcome<seq<Value>>): (o: Outcome<Value>)
    ensures o.Done? <==> r.Done? && r.used <= INT_MAX
    ensures o.Done? ==> o == Done(Rec(r.value), r.used)
    ensures r.Done? && r.used > INT_MAX ==>
      o == if r.used % 0x1_0000_0000 == 0xffff_ffff then Refused else Lost
    ensures o.Lost? ==> r.Lost? || (r.Done? && r.used > INT_MAX)
  {
    match r
    case Done(vs, used) =>
      if AsInt32(used) == -1 then Refused
      else if AsInt32(used) != used then Lost
      else Done(Rec(vs), used)
    case Refused => Refused
    case Lost => Lost
  }

  /** `return -1` and a lost cursor both end the enclosing body at once. */
  function Stop<T, U>(r: Outcome<T>): Outcome<U>
    requires !r.Done?
  {
    if r.Lost? then Lost else Refused
  }

  function Follow(first: Outcome<Value>, rest: Outcome<seq<Value>>): Outcome<seq<Value>>
    requires first.Done?
  {
    if rest.Done? then Done([first.value] + rest.value, first.used + rest.used) else rest
  }

  function Append(sofar: Outcome<seq<Value>>, next: Outcome<Value>): Outcome<seq<Value>>
    requires sofar.Done?
  {
    if next.Done? then Done(sofar.value + [next.value], sofar.used + next.used) else Stop(next)
  }

  function Decode(s: Schema, bs: seq<byte>): (r: Outcome<Value>)
    ensures r.Done? ==> r.used <= |bs|
    ensures r.Lost? ==> |bs| > INT_MAX
    decreases s, 0
  {
    match s
    case Str =>
      (match ReadInt(Int32V, bs)
       case Done(n, used) =>
         if |bs| - used < n then Refused else Done(Text(bs[used..used + n]), used + n)
       case _ => Refused)
    case Struct(fs) => StructOutcome(DecodeFields(fs, bs))
    case _ =>
      (match ReadInt(s, bs)
       case Done(n, used) => Done(Num(n), used)
       case _ => Refused)
  }

  function DecodeField(f: Field, bs: seq<byte>): (r: Outcome<Value>)
    ensures r.Done? ==> r.used <= |bs|
    ensures r.Lost? ==> |bs| > INT_MAX
    decreases f, 0
  {
    match f
    case Single(s) => Decode(s, bs)
    case EnumField =>
      (match ReadInt(Int32V, bs)
       case Done(n, used) => Done(Num(n), used)
       case _ => Refused)
    case ListOf(s) =>
      (match ReadInt(Int32V, bs)
       case Done(n, used) =>
         var items := DecodeItems(s, n, bs[used..]);
         if items.Done? then Done(Many(items.value), used + items.used) else Stop(items)
       case _ => Refused)
  }

  function DecodeFields(fs: seq<Field>, bs: seq<byte>): (r: Outcome<seq<Value>>)
    ensures r.Done? ==> r.used <= |bs|
    ensures r.Lost? ==> |bs| > INT_MAX
    decreases fs, 0
  {
    if fs == [] then Done([], 0) else
    var first := DecodeField(fs[0], bs);
    if first.Done? then Follow(first, DecodeFields(fs[1..], bs[first.used..])) else Stop(first)
  }

  function DecodeItems(s: Schema, n: nat, bs: seq<byte>): (r: Outcome<seq<Value>>)
    ensures r.Done? ==> r.used <= |bs| && |r.value| == n
    ensures r.Lost? ==> |bs| > INT_MAX
    decreases s, 1, n
  {
    if n == 0 then Done([], 0) else
    var sofar := DecodeItems(s, n - 1, bs);
    if !sofar.Done? then sofar else Append(sofar, Decode(s, bs[sofar.used..]))
  }
}
