/** Bytes and their reading as big- and little-endian numbers, shared by the
    growable buffer and by the exchange codec. */
module ByteStrings {

  type byte = b: int | 0 <= b < 256

  const MAX16: nat := 0xffff
  const MAX32: nat := 0xffff_ffff
  const INT_MAX: nat := 0x7fff_ffff
  const TWO32: nat := 0x1_0000_0000
  const TWO64: nat := 0x1_0000_0000_0000_0000

  /** The number of values that fit in `k` bytes. */
  function Pow256(k: nat): (r: nat)
    ensures r >= 1
  {
    if k == 0 then 1 else 256 * Pow256(k - 1)
  }

  lemma Pow256Values()
    ensures Pow256(1) == 256 && Pow256(2) == MAX16 + 1
    ensures Pow256(4) == TWO32 && Pow256(8) == TWO64
  {
    assert Pow256(3) == 0x100_0000;
    assert Pow256(4) == TWO32;
    assert Pow256(5) == 0x100_0000_0000;
    assert Pow256(6) == 0x1_0000_0000_0000;
    assert Pow256(7) == 0x100_0000_0000_0000;
  }

  /** The low `k` bytes of `v`, most significant first. */
  function BigEndian(v: nat, k: nat): (s: seq<byte>)
    ensures |s| == k
  {
    if k == 0 then [] else BigEndian(v / 256, k - 1) + [v % 256]
  }

  /** The number a big-endian byte string stands for. */
  function Number(s: seq<byte>): nat
  {
    if s == [] then 0 else Number(s[..|s| - 1]) * 256 + s[|s| - 1]
  }

  lemma {:induction false} NumberOfBigEndian(v: nat, k: nat)
    requires v < Pow256(k)
    ensures Number(BigEndian(v, k)) == v
  {
    if k > 0 {
      NumberOfBigEndian(v / 256, k - 1);
      var s := BigEndian(v, k);
      assert s[..|s| - 1] == BigEndian(v / 256, k - 1);
    }
  }

  lemma {:induction false} BigEndianOfNumber(s: seq<byte>)
    ensures Number(s) < Pow256(|s|)
    ensures BigEndian(Number(s), |s|) == s
  {
    if s != [] {
      var front := s[..|s| - 1];
      BigEndianOfNumber(front);
      assert Number(s) / 256 == Number(front) && Number(s) % 256 == s[|s| - 1];
      assert s == front + [s[|s| - 1]];
    }
  }

  /** The bytes the sources store for 1, 2, 4 and 8 bytes: shifts and truncations. */
  lemma BigEndian1(v: nat)
    ensures BigEndian(v, 1) == [v % 256]
  {
    assert BigEndian(v / 256, 0) == [];
  }

  lemma BigEndian2(v: nat)
    ensures BigEndian(v, 2) == [v / 0x100 % 256, v % 256]
  {
    BigEndian1(v / 0x100);
  }

  lemma BigEndian4(v: nat)
    ensures BigEndian(v, 4) == [v / 0x100_0000 % 256, v / 0x1_0000 % 256, v / 0x100 % 256, v % 256]
  {
    var v1, v2 := v / 0x100, v / 0x1_0000;
    assert v1 / 0x100 == v2 && v2 / 0x100 == v / 0x100_0000;
    BigEndian2(v2);
    assert BigEndian(v1, 3) == BigEndian(v2, 2) + [v1 % 256];
    assert BigEndian(v, 4) == BigEndian(v1, 3) + [v % 256];
  }

  lemma BigEndian8(v: nat)
    ensures BigEndian(v, 8) ==
      [v / 0x100_0000_0000_0000 % 256, v / 0x1_0000_0000_0000 % 256,
       v / 0x100_0000_0000 % 256, v / 0x1_0000_0000 % 256,
       v / 0x100_0000 % 256, v / 0x1_0000 % 256, v / 0x100 % 256, v % 256]
  {
    var v1, v2, v3, v4 := v / 0x100, v / 0x1_0000, v / 0x100_0000, v / TWO32;
    assert v1 / 0x100 == v2 && v2 / 0x100 == v3 && v3 / 0x100 == v4;
    assert v4 / 0x100_0000 == v / 0x100_0000_0000_0000;
    assert v4 / 0x1_0000 == v / 0x1_0000_0000_0000;
    assert v4 / 0x100 == v / 0x100_0000_0000;
    BigEndian4(v4);
    assert BigEndian(v3, 5) == BigEndian(v4, 4) + [v3 % 256];
    assert BigEndian(v2, 6) == BigEndian(v3, 5) + [v2 % 256];
    assert BigEndian(v1, 7) == BigEndian(v2, 6) + [v1 % 256];
    assert BigEndian(v, 8) == BigEndian(v1, 7) + [v % 256];
  }

  lemma NumberStep(s: seq<byte>, k: nat)
    requires k < |s|
    ensures Number(s[..k + 1]) == Number(s[..k]) * 256 + s[k]
  {
    assert s[..k + 1][..k] == s[..k];
  }

  /** A byte widened, as the C casts do before shifting. */
  function Wide(b: byte): nat { b }

  /** The byte-by-byte expressions the sources use for 1, 2, 4 and 8 bytes. */
  lemma Number1(s: seq<byte>)
    requires |s| == 1
    ensures Number(s) == s[0]
  {
    assert s[..0] == [];
  }

  lemma Number2(s: seq<byte>)
    requires |s| == 2
    ensures Number(s) == Wide(s[1]) + Wide(s[0]) * 0x100
  {
    Number1(s[..1]);
  }

  lemma Number4(s: seq<byte>)
    requires |s| == 4
    ensures Number(s) ==
      Wide(s[3]) + Wide(s[2]) * 0x100 + Wide(s[1]) * 0x1_0000 + Wide(s[0]) * 0x100_0000
  {
    Number2(s[..2]);
    NumberStep(s, 2);
    NumberStep(s, 3);
    assert s[..4] == s;
  }

  lemma Number8(s: seq<byte>)
    requires |s| == 8
    ensures Number(s) ==
      Wide(s[7]) + Wide(s[6]) * 0x100 + Wide(s[5]) * 0x1_0000 + Wide(s[4]) * 0x100_0000
      + Wide(s[3]) * 0x1_0000_0000 + Wide(s[2]) * 0x100_0000_0000
      + Wide(s[1]) * 0x1_0000_0000_0000 + Wide(s[0]) * 0x100_0000_0000_0000
  {
    Number4(s[..4]);
    NumberStep(s, 4);
    NumberStep(s, 5);
    NumberStep(s, 6);
    NumberStep(s, 7);
    assert s[..8] == s;
  }

  function Reversed(s: seq<byte>): (r: seq<byte>)
    ensures |r| == |s|
    ensures forall i :: 0 <= i < |s| ==> r[i] == s[|s| - 1 - i]
  {
    seq(|s|, i requires 0 <= i < |s| => s[|s| - 1 - i])
  }

  /** The `k` bytes of `v` in the byte order asked for. */
  function IntBytes(v: nat, k: nat, littleEndian: bool): (s: seq<byte>)
    ensures |s| == k
  {
    if littleEndian then Reversed(BigEndian(v, k)) else BigEndian(v, k)
  }

  function IntValue(s: seq<byte>, littleEndian: bool): nat
  {
    if littleEndian then Number(Reversed(s)) else Number(s)
  }

  /** Writing an integer and reading it back in the same order is the identity. */
  lemma IntRoundTrip(v: nat, k: nat, littleEndian: bool)
    requires v < Pow256(k)
    ensures IntValue(IntBytes(v, k, littleEndian), littleEndian) == v
  {
    NumberOfBigEndian(v, k);
    var s := BigEndian(v, k);
    assert Reversed(Reversed(s)) == s;
  }

  /** The C conversion of a byte count to a 32-bit `int`. */
  function AsInt32(n: nat): (r: int)
    ensures -0x8000_0000 <= r <= INT_MAX
    ensures r == n <==> n <= INT_MAX
  {
    var m := n % TWO32;
    if m <= INT_MAX then m else m - TWO32
  }

  lemma Slice(s: seq<byte>, lo: nat, hi: nat, a: nat, k: nat)
    requires lo <= hi <= |s| && lo + a + k <= hi
    ensures s[lo..hi][a..a + k] == s[lo + a..lo + a + k]
  {
    var left, right := s[lo..hi][a..a + k], s[lo + a..lo + a + k];
    assert |left| == |right| && forall i :: 0 <= i < k ==> left[i] == right[i];
  }

  lemma SliceTail(s: seq<byte>, lo: nat, hi: nat, a: nat)
    requires lo + a <= hi <= |s|
    ensures s[lo..hi][a..] == s[lo + a..hi]
  {
  }

  lemma Adjoin(s: seq<byte>, a: nat, b: nat, c: nat)
    requires a <= b <= c <= |s|
    ensures s[a..b] + s[b..c] == s[a..c]
  {
  }
}
