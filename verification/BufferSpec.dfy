/** The growable read/write-cursor buffer as a value: what each operation does to the
    storage and the two indices. Sizes are 64-bit, so the reallocation arithmetic is
    written modulo 2^64. */
module BufferSpec {
  import opened Basics
  import opened ByteStrings

  datatype Buf = Buf(data: seq<byte>, r: nat, w: nat, expand: nat) {
    /** What every operation keeps; an empty buffer has both indices at 0. */
    predicate Valid() {
      r <= w <= |data| < TWO64 && 0 < expand < TWO64 && (r == w ==> r == 0)
    }
    function Readable(): seq<byte> requires Valid() { data[r..w] }
    function ReadableBytes(): nat requires Valid() { w - r }
    function WritableBytes(): nat requires Valid() { |data| - w }

    /** The room asked for, with slack for two expansions, is a 64-bit size. */
    predicate CanReserve(size: nat) requires Valid() {
      ReadableBytes() + size + 2 * expand < TWO64
    }
  }

  function Fresh(init: nat, expand: nat): (b: Buf)
    requires init < TWO64 && 0 < expand < TWO64
    ensures b.Valid() && b.Readable() == []
    ensures b.WritableBytes() == init && b.expand == expand
  {
    Buf(seq(init, _ => 0), 0, 0, expand)
  }

  function Clear(b: Buf): Buf { b.(r := 0, w := 0) }

  function Read(b: Buf, size: nat): (b': Buf)
    requires b.Valid()
    ensures b'.Valid() && b'.Readable() == b.Readable()[Min(size, b.ReadableBytes())..]
  {
    var r := b.r + Min(size, b.ReadableBytes());
    if r == b.w then Clear(b) else b.(r := r)
  }

  function Write(b: Buf, size: nat): (b': Buf)
    requires b.Valid()
    ensures b'.Valid()
    ensures b'.Readable() == b.Readable() + b.data[b.w..b.w + Min(size, b.WritableBytes())]
  {
    Adjoin(b.data, b.r, b.w, b.w + Min(size, b.WritableBytes()));
    b.(w := b.w + Min(size, b.WritableBytes()))
  }

  /** A client's memcpy to `writeBegin()`. */
  function Fill(b: Buf, bytes: seq<byte>): (b': Buf)
    requires b.Valid() && |bytes| <= b.WritableBytes()
    ensures b'.Valid() && b'.Readable() == b.Readable()
    ensures |b'.data| == |b.data| && b'.data[b.w..b.w + |bytes|] == bytes
  {
    b.(data := b.data[..b.w] + bytes + b.data[b.w + |bytes|..])
  }

  function Sub64(a: nat, b: nat): nat
    requires a < TWO64 && b < TWO64
  {
    if a >= b then a - b else a + TWO64 - b
  }

  /** The capacity chosen when the writable bytes do not suffice. */
  function GrownSize(b: Buf, size: nat): nat
    requires b.Valid() && size < TWO64
  {
    var free := b.r + b.WritableBytes();
    if free >= size && free - size < b.expand
    then (|b.data| + b.expand) % TWO64
    else (|b.data| + Chunks(Sub64(size, free), b.expand) % TWO64) % TWO64
  }

  /** Whole expansions covering `d`, and at least one byte more. */
  function Chunks(d: nat, e: nat): (c: nat)
    requires e > 0
    ensures d < c <= d + e
  {
    assert e * (d / e + 1) == e * (d / e) + e;
    e * (d / e + 1)
  }

  function Reserve(b: Buf, size: nat): (b': Buf)
    requires b.Valid() && b.CanReserve(size)
    ensures b'.Valid() && b'.Readable() == b.Readable()
    ensures size <= b'.WritableBytes() && b'.expand == b.expand
  {
    if b.WritableBytes() >= size then b
    else
      GrownSizeBounds(b, size);
      var readable := b.Readable();
      Buf(readable + seq(GrownSize(b, size) - |readable|, _ => 0), 0, |readable|, b.expand)
  }

  function WriteBytes(b: Buf, bytes: seq<byte>): (b': Buf)
    requires b.Valid() && b.CanReserve(|bytes|)
    ensures b'.Valid() && b'.Readable() == b.Readable() + bytes && b'.expand == b.expand
  {
    var b1 := Fill(Reserve(b, |bytes|), bytes);
    assert b1.data[b1.w..b1.w + |bytes|] == bytes;
    Write(b1, |bytes|)
  }

  function WriteInt(b: Buf, v: nat, k: nat, littleEndian: bool): (b': Buf)
    requires b.Valid() && b.CanReserve(k)
    ensures b'.Valid() && b'.Readable() == b.Readable() + IntBytes(v, k, littleEndian)
  {
    WriteBytes(b, IntBytes(v, k, littleEndian))
  }

  datatype Maybe<+T> = None | Some(value: T)

  /** The bounds test adds the offset to the width in 64 bits. */
  predicate PeekGuard(readable: nat, offset: nat, k: nat) { readable >= (offset + k) % TWO64 }

  function Peek(b: Buf, offset: nat, k: nat, littleEndian: bool): Maybe<nat>
    requires b.Valid() && offset + k < TWO64
  {
    if PeekGuard(b.ReadableBytes(), offset, k)
    then Some(IntValue(b.Readable()[offset..offset + k], littleEndian))
    else None
  }

  function ReadInt(b: Buf, k: nat, littleEndian: bool): (Maybe<nat>, Buf)
    requires b.Valid() && k < TWO64
  {
    var v := Peek(b, 0, k, littleEndian);
    (v, if v.Some? then Read(b, k) else b)
  }

  // ---------------------------------------------------------- reallocation

  /** The two wraps cancel: `chunk` covers size - free modulo 2^64, and adding it to the
      capacity readable + free gives readable + size + slack. */
  lemma WrapsCancel(readable: nat, free: nat, size: nat, e: nat, chunk: nat)
    requires readable + free < TWO64 && readable + size + e < TWO64
    requires Sub64(size, free) < chunk <= Sub64(size, free) + e
    ensures size < (readable + free + chunk % TWO64) % TWO64 - readable <= size + e
  {
    var slack := chunk - Sub64(size, free);
    if size < free && chunk < TWO64 {
      assert readable + free + chunk == readable + size + slack + TWO64;
    } else if size < free {
      assert chunk % TWO64 == chunk - TWO64;
    }
  }

  /** Whichever branch is taken, the new writable room exceeds the request by at least one
      byte and by less than two expansions. */
  lemma GrownSizeBounds(b: Buf, size: nat)
    requires b.Valid() && b.CanReserve(size) && b.WritableBytes() < size
    ensures size < GrownSize(b, size) - b.ReadableBytes() < size + 2 * b.expand
  {
    hide Chunks, Sub64;
    var readable, free, e := b.ReadableBytes(), b.r + b.WritableBytes(), b.expand;
    assert |b.data| == readable + free;
    if free >= size && free - size < e {
      SmallGrowth(readable, free, size, e);
    } else {
      WrapsCancel(readable, free, size, e, Chunks(Sub64(size, free), e));
    }
  }

  lemma SmallGrowth(readable: nat, free: nat, size: nat, e: nat)
    requires size <= free < size + e && readable + size + 2 * e < TWO64
    ensures size < (readable + free + e) % TWO64 - readable < size + 2 * e
  {
  }

  /** The capacity chosen, in unbounded arithmetic: by whole expansions past what is missing;
      by one expansion if the free bytes exceed the request by less than one; and otherwise,
      where size - free wraps, down to the request and a slack given by the remainder. */
  lemma GrownSizeExact(b: Buf, size: nat)
    requires b.Valid() && b.CanReserve(size) && b.WritableBytes() < size
    ensures var free, e := b.r + b.WritableBytes(), b.expand;
      GrownSize(b, size) ==
        if size > free then |b.data| + e * ((size - free) / e + 1)
        else if free < size + e then |b.data| + e
        else b.ReadableBytes() + size + (e - (0x1_0000_0000_0000_0000 - (free - size)) % e)
  {
    hide Chunks, Sub64;
    var readable, free, e := b.ReadableBytes(), b.r + b.WritableBytes(), b.expand;
    assert |b.data| == readable + free;
    if size > free {
      GrowsByChunks(readable, free, size, e);
    } else if free < size + e {
      SmallGrowth(readable, free, size, e);
    } else {
      ShrinksToSlack(readable, free, size, e);
    }
  }

  lemma GrowsByChunks(readable: nat, free: nat, size: nat, e: nat)
    requires 0 < e && free < size && readable + size + 2 * e < TWO64
    ensures (readable + free + Chunks(Sub64(size, free), e) % TWO64) % TWO64
      == readable + free + e * ((size - free) / e + 1)
  {
    var chunk := e * ((size - free) / e + 1);
    assert Chunks(size - free, e) == chunk <= size - free + e;
    WrapOnce(readable + free, chunk, readable + free + chunk);
  }

  /** Sums that wrap at most once. */
  lemma WrapOnce(x: nat, c: nat, y: nat)
    requires c <= TWO64 && x < TWO64 && y < TWO64 && (x + c == y || x + c == y + TWO64)
    ensures (x + c % TWO64) % TWO64 == y
  {
    if c == TWO64 { assert c % TWO64 == 0; } else { assert c % TWO64 == c; }
  }

  lemma ShrinksToSlack(readable: nat, free: nat, size: nat, e: nat)
    requires 0 < e && size + e <= free && readable + free < TWO64 && readable + size + 2 * e < TWO64
    ensures (readable + free + Chunks(Sub64(size, free), e) % TWO64) % TWO64
      == readable + size + (e - (TWO64 - (free - size)) % e)
  {
    var d := TWO64 - (free - size);
    var slack := e - d % e;
    assert Sub64(size, free) == d;
    ChunksSlack(d, e);
    SlackBounds(d, e);
    hide Chunks;
    WrapOnce(readable + free, d + slack, readable + size + slack);
  }

  lemma SlackBounds(d: nat, e: nat)
    requires e > 0
    ensures 0 < e - d % e <= e
  {
  }

  lemma ChunksSlack(d: nat, e: nat)
    requires e > 0
    ensures Chunks(d, e) == d + (e - d % e)
  {
    assert e * (d / e + 1) == e * (d / e) + e;
  }

  /** A request for room that is there changes nothing; any other moves the readable bytes to
      the front of a storage of the size chosen. */
  lemma ReserveExact(b: Buf, size: nat)
    requires b.Valid() && b.CanReserve(size)
    ensures b.WritableBytes() >= size ==> Reserve(b, size) == b
    ensures b.WritableBytes() < size ==>
      var b' := Reserve(b, size);
      b'.r == 0 && b'.w == b.ReadableBytes() && |b'.data| == GrownSize(b, size)
  {
    if b.WritableBytes() < size { GrownSizeBounds(b, size); }
  }

  /** Every reallocation, even one that shrinks, keeps the readable bytes and leaves
      size < writable < size + 2 * expand. */
  lemma ReallocationBounds(b: Buf, size: nat)
    requires b.Valid() && b.CanReserve(size) && b.WritableBytes() < size
    ensures var b' := Reserve(b, size);
      b'.Readable() == b.Readable() && size < b'.WritableBytes() < size + 2 * b.expand
  {
    GrownSizeBounds(b, size);
  }

  /** The wrapping branch can shrink the storage: 3 readable bytes at the end of 1000, a
      request for 1 byte and an expansion of 10 leave a buffer of 14. */
  lemma ReserveCanShrink()
    ensures exists b: Buf :: b.Valid() && b.CanReserve(1) && |Reserve(b, 1).data| < |b.data|
  {
    var b := Buf(seq(1000, _ => 0), 997, 1000, 10);
    GrownSizeBounds(b, 1);
    assert |Reserve(b, 1).data| < |b.data|;
  }

  // ------------------------------------------------------ peek and integers

  /** The bounds test is a bounds test exactly when offset + width does not wrap. */
  lemma PeekGuardExact(offset: nat, k: nat)
    requires offset < TWO64 && k <= 8
    ensures (forall readable: nat | readable < TWO64 ::
               PeekGuard(readable, offset, k) <==> offset + k <= readable)
            <==> offset + k < TWO64
  {
    if offset + k >= TWO64 {
      var readable: nat := TWO64 - 1;
      assert PeekGuard(readable, offset, k);
    }
  }

  lemma PeekMeaning(b: Buf, offset: nat, k: nat, littleEndian: bool)
    requires b.Valid() && offset + k < TWO64
    ensures Peek(b, offset, k, littleEndian) ==
      if offset + k <= |b.Readable()| then Some(IntValue(b.Readable()[offset..offset + k], littleEndian)) else None
  {
    assert (offset + k) % TWO64 == offset + k;
  }

  /** Peeking, on the stored bytes. */
  lemma PeekOf(b: Buf, offset: nat, k: nat, littleEndian: bool, raw: seq<byte>)
    requires b.Valid() && offset + k <= b.ReadableBytes() && raw == b.data[b.r + offset..b.r + offset + k]
    ensures Peek(b, offset, k, littleEndian) == Some(IntValue(raw, littleEndian))
  {
    PeekMeaning(b, offset, k, littleEndian);
    Slice(b.data, b.r, b.w, offset, k);
  }

  /** Peeking at an offset is reading after skipping that many bytes. */
  lemma PeekIsReadAfterSkip(b: Buf, offset: nat, k: nat, littleEndian: bool)
    requires b.Valid() && 0 < k && offset + k < TWO64
    ensures Peek(b, offset, k, littleEndian) == ReadInt(Read(b, offset), k, littleEndian).0
  {
    var s := b.Readable();
    PeekMeaning(b, offset, k, littleEndian);
    PeekMeaning(Read(b, offset), 0, k, littleEndian);
    if offset + k <= |s| {
      Slice(s, offset, |s|, 0, k);
      assert Read(b, offset).Readable() == s[offset..|s|];
    }
  }

  /** An integer to be stored: value, width and byte order. */
  datatype Item = Item(v: nat, k: nat, littleEndian: bool) {
    predicate Valid() { k in {1, 2, 4, 8} && v < Pow256(k) }
    function Bytes(): seq<byte> { IntBytes(v, k, littleEndian) }
  }

  function Layout(items: seq<Item>): seq<byte>
  {
    if items == [] then [] else items[0].Bytes() + Layout(items[1..])
  }

  /** Writes with reallocations of any size forced before each of them. */
  function StoreAll(b: Buf, items: seq<Item>, room: seq<nat>): (b': Maybe<Buf>)
    requires b.Valid() && |room| == |items|
    ensures b'.Some? ==> b'.value.Valid()
    decreases items
  {
    if items == [] then Some(b)
    else if !b.CanReserve(room[0]) then None
    else
      var b1 := Reserve(b, room[0]);
      if !b1.CanReserve(items[0].k) then None
      else StoreAll(WriteInt(b1, items[0].v, items[0].k, items[0].littleEndian), items[1..], room[1..])
  }

  function FetchAll(b: Buf, items: seq<Item>): (r: seq<Maybe<nat>>)
    requires b.Valid() && forall i :: 0 <= i < |items| ==> items[i].Valid()
    decreases items
  {
    if items == [] then []
    else
      assert items[0].Valid();
      var (v, b') := ReadInt(b, items[0].k, items[0].littleEndian);
      [v] + FetchAll(b', items[1..])
  }

  lemma {:induction false} StoreAllLayout(b: Buf, items: seq<Item>, room: seq<nat>)
    requires b.Valid() && |room| == |items| && StoreAll(b, items, room).Some?
    ensures StoreAll(b, items, room).value.Readable() == b.Readable() + Layout(items)
    decreases items
  {
    if items == [] {
      assert b.Readable() + [] == b.Readable();
    } else {
      var b1 := Reserve(b, room[0]);
      var b2 := WriteInt(b1, items[0].v, items[0].k, items[0].littleEndian);
      StoreAllLayout(b2, items[1..], room[1..]);
      Regroup(b.Readable(), items[0].Bytes(), Layout(items[1..]));
    }
  }

  /** What was stored, in order. */
  function Values(items: seq<Item>): seq<Maybe<nat>>
  {
    if items == [] then [] else [Some(items[0].v)] + Values(items[1..])
  }

  lemma FetchOne(b: Buf, x: Item, tail: seq<byte>)
    requires b.Valid() && x.Valid() && b.Readable() == x.Bytes() + tail
    ensures var (v, b') := ReadInt(b, x.k, x.littleEndian);
      v == Some(x.v) && b'.Valid() && b'.Readable() == tail
  {
    assert b.Readable()[0..x.k] == x.Bytes();
    IntRoundTrip(x.v, x.k, x.littleEndian);
  }

  lemma {:induction false} FetchAllLayout(b: Buf, items: seq<Item>, rest: seq<byte>)
    requires b.Valid() && forall i :: 0 <= i < |items| ==> items[i].Valid()
    requires b.Readable() == Layout(items) + rest
    ensures FetchAll(b, items) == Values(items)
    decreases items
  {
    if items != [] {
      Regroup(items[0].Bytes(), Layout(items[1..]), rest);
      FetchOne(b, items[0], Layout(items[1..]) + rest);
      FetchAllLayout(ReadInt(b, items[0].k, items[0].littleEndian).1, items[1..], rest);
    }
  }

  /** Integers of any widths and byte orders, stored across any reallocations, come back
      unchanged and in order. */
  lemma StoreFetch(b: Buf, items: seq<Item>, room: seq<nat>)
    requires b.Valid() && b.Readable() == [] && |room| == |items|
    requires forall i :: 0 <= i < |items| ==> items[i].Valid()
    requires StoreAll(b, items, room).Some?
    ensures FetchAll(StoreAll(b, items, room).value, items) == Values(items)
  {
    StoreAllLayout(b, items, room);
    assert [] + Layout(items) == Layout(items) + [];
    FetchAllLayout(StoreAll(b, items, room).value, items, []);
  }

  // ------------------------------------------------------------ whole runs

  datatype Op =
    | OpRead(size: nat) | OpWrite(size: nat) | OpFill(bytes: seq<byte>)
    | OpReserve(size: nat) | OpWriteBytes(bytes: seq<byte>)
    | OpWriteInt(v: nat, k: nat, littleEndian: bool) | OpReadInt(k: nat, littleEndian: bool)

  /** A buffer with its past: the bytes consumed, the bytes written, the largest
      readable + requested + 2 * expand of any reservation. */
  datatype Past = Past(b: Buf, consumed: seq<byte>, written: seq<byte>, peak: nat)

  predicate Allowed(b: Buf, op: Op)
    requires b.Valid()
  {
    match op
    case OpFill(bytes) => |bytes| <= b.WritableBytes()
    case OpReserve(n) => b.CanReserve(n)
    case OpWriteBytes(bytes) => b.CanReserve(|bytes|)
    case OpWriteInt(_, k, _) => b.CanReserve(k)
    case OpReadInt(k, _) => k < TWO64
    case _ => true
  }

  function Effect(b: Buf, op: Op): (b': Buf)
    requires b.Valid() && Allowed(b, op)
    ensures b'.Valid() && b'.expand == b.expand
  {
    match op
    case OpRead(n) => Read(b, n)
    case OpWrite(n) => Write(b, n)
    case OpFill(bytes) => Fill(b, bytes)
    case OpReserve(n) => Reserve(b, n)
    case OpWriteBytes(bytes) => WriteBytes(b, bytes)
    case OpWriteInt(v, k, le) => WriteInt(b, v, k, le)
    case OpReadInt(k, le) => ReadInt(b, k, le).1
  }

  /** Bytes that leave the readable region at the front. */
  function Consumed(b: Buf, op: Op): seq<byte>
    requires b.Valid() && Allowed(b, op)
  {
    match op
    case OpRead(n) => b.Readable()[..Min(n, b.ReadableBytes())]
    case OpReadInt(k, le) => if b.ReadableBytes() < k then [] else b.Readable()[..k]
    case _ => []
  }

  /** Bytes that enter it at the back. */
  function Added(b: Buf, op: Op): seq<byte>
    requires b.Valid() && Allowed(b, op)
  {
    match op
    case OpWrite(n) => b.data[b.w..b.w + Min(n, b.WritableBytes())]
    case OpWriteBytes(bytes) => bytes
    case OpWriteInt(v, k, le) => IntBytes(v, k, le)
    case _ => []
  }

  function Demand(b: Buf, op: Op): nat
    requires b.Valid()
  {
    var base := b.ReadableBytes() + 2 * b.expand;
    match op
    case OpReserve(n) => base + n
    case OpWriteBytes(bytes) => base + |bytes|
    case OpWriteInt(_, k, _) => base + k
    case _ => 0
  }

  function Max(a: nat, b: nat): nat { if a < b then b else a }

  function Step(p: Past, op: Op): Past
    requires p.b.Valid() && Allowed(p.b, op)
  {
    Past(Effect(p.b, op), p.consumed + Consumed(p.b, op), p.written + Added(p.b, op),
         Max(p.peak, Demand(p.b, op)))
  }

  ghost predicate IsRun(ps: seq<Past>, ops: seq<Op>)
  {
    && |ps| == |ops| + 1
    && forall i :: 0 <= i < |ops| ==>
         ps[i].b.Valid() && Allowed(ps[i].b, ops[i]) && ps[i + 1] == Step(ps[i], ops[i])
  }

  ghost predicate Conserved(p: Past, init: nat)
  {
    && p.b.Valid()
    && p.consumed + p.b.Readable() == p.written
    && |p.b.data| <= Max(init, p.peak)
  }

  lemma StepConserves(p: Past, op: Op, init: nat)
    requires Conserved(p, init) && Allowed(p.b, op)
    ensures Conserved(Step(p, op), init)
  {
    var b := p.b;
    OneStepBytes(b, op);
    OneStepCapacity(b, op);
    Regroup(p.consumed, Consumed(b, op), Effect(b, op).Readable());
    Regroup(p.consumed, b.Readable(), Added(b, op));
  }

  lemma OneStepBytes(b: Buf, op: Op)
    requires b.Valid() && Allowed(b, op)
    ensures Consumed(b, op) + Effect(b, op).Readable() == b.Readable() + Added(b, op)
  {
    if op.OpRead? || op.OpReadInt? { ReadStepBytes(b, op); } else { WriteStepBytes(b, op); }
  }

  lemma ReadStepBytes(b: Buf, op: Op)
    requires b.Valid() && Allowed(b, op) && (op.OpRead? || op.OpReadInt?)
    ensures Consumed(b, op) + Effect(b, op).Readable() == b.Readable() + Added(b, op)
  {
    if op.OpRead? {
      ReadBytesSplit(b, op.size);
    } else {
      PeekMeaning(b, 0, op.k, op.littleEndian);
      if op.k <= b.ReadableBytes() { ReadBytesSplit(b, op.k); } else { Neutral(b.Readable()); }
    }
  }

  lemma WriteStepBytes(b: Buf, op: Op)
    requires b.Valid() && Allowed(b, op) && !op.OpRead? && !op.OpReadInt?
    ensures Consumed(b, op) + Effect(b, op).Readable() == b.Readable() + Added(b, op)
  {
    Neutral(b.Readable());
    Neutral(Effect(b, op).Readable());
  }

  lemma Neutral(s: seq<byte>)
    ensures [] + s == s == s + []
  {
  }

  lemma ReadBytesSplit(b: Buf, n: nat)
    requires b.Valid()
    ensures var k := Min(n, b.ReadableBytes());
      b.Readable()[..k] + Read(b, n).Readable() == b.Readable() + []
  {
    var s, k := b.Readable(), Min(n, b.ReadableBytes());
    assert s[..k] + s[k..] == s == s + [];
  }

  lemma OneStepCapacity(b: Buf, op: Op)
    requires b.Valid() && Allowed(b, op)
    ensures |Effect(b, op).data| <= Max(|b.data|, Demand(b, op))
  {
    match op {
      case OpReserve(n) => ReserveCapacity(b, n);
      case OpWriteBytes(bytes) => WriteBytesCapacity(b, bytes);
      case OpWriteInt(v, k, le) => WriteBytesCapacity(b, IntBytes(v, k, le));
      case OpRead(n) =>
      case OpReadInt(k, le) =>
      case OpWrite(n) =>
      case OpFill(bytes) =>
    }
  }

  lemma WriteBytesCapacity(b: Buf, bytes: seq<byte>)
    requires b.Valid() && b.CanReserve(|bytes|)
    ensures |WriteBytes(b, bytes).data| <= Max(|b.data|, b.ReadableBytes() + |bytes| + 2 * b.expand)
  {
    ReserveCapacity(b, |bytes|);
  }

  lemma ReserveCapacity(b: Buf, size: nat)
    requires b.Valid() && b.CanReserve(size)
    ensures |Reserve(b, size).data| <= Max(|b.data|, b.ReadableBytes() + size + 2 * b.expand)
  {
    if b.WritableBytes() < size { GrownSizeBounds(b, size); }
  }

  /** Over every run: nothing written is lost, duplicated or reordered, the indices stay in
      order, and the storage never outgrows the largest demand made of it. */
  lemma {:induction false} RunConserves(ps: seq<Past>, ops: seq<Op>, init: nat, expand: nat, i: nat)
    requires init < TWO64 && 0 < expand < TWO64
    requires IsRun(ps, ops) && ps[0] == Past(Fresh(init, expand), [], [], 0)
    requires i <= |ops|
    ensures Conserved(ps[i], init)
    decreases i
  {
    if i > 0 {
      RunConserves(ps, ops, init, expand, i - 1);
      StepConserves(ps[i - 1], ops[i - 1], init);
    }
  }
}
