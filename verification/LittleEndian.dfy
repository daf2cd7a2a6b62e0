/** Base-256 little-endian numbers of a fixed width. */
module LittleEndian {

  type byte = b: int | 0 <= b < 256

  function Pow256(n: nat): (r: nat)
    ensures r >= 1
  {
    if n == 0 then 1 else 256 * Pow256(n - 1)
  }

  /** The `width` low bytes of `value`, least significant first. */
  function ToBytes(value: nat, width: nat): (b: seq<byte>)
    ensures |b| == width
  {
    if width == 0 then [] else [value % 256] + ToBytes(value / 256, width - 1)
  }

  function FromBytes(b: seq<byte>): (value: nat)
    ensures value < Pow256(|b|)
  {
    if b == [] then 0 else b[0] + 256 * FromBytes(b[1..])
  }

  lemma {:induction false} FromToBytes(value: nat, width: nat)
    requires value < Pow256(width)
    ensures FromBytes(ToBytes(value, width)) == value
  {
    if width > 0 {
      FromToBytes(value / 256, width - 1);
      assert ToBytes(value, width)[1..] == ToBytes(value / 256, width - 1);
    }
  }

  lemma {:induction false} ToFromBytes(b: seq<byte>)
    ensures ToBytes(FromBytes(b), |b|) == b
  {
    if b != [] {
      ToFromBytes(b[1..]);
      assert (b[0] + 256 * FromBytes(b[1..])) / 256 == FromBytes(b[1..]);
    }
  }

  /** Writing in a wider format and keeping the low bytes is writing in the narrow one. */
  lemma {:induction false} TruncatedWide(value: nat, width: nat, wide: nat)
    requires width <= wide
    ensures ToBytes(value, wide)[..width] == ToBytes(value, width)
  {
    if width > 0 {
      TruncatedWide(value / 256, width - 1, wide - 1);
      assert ToBytes(value, wide)[..width] == [value % 256] + ToBytes(value / 256, wide - 1)[..width - 1];
    }
  }

  lemma Widths()
    ensures Pow256(2) == 65_536
    ensures Pow256(4) == 4_294_967_296
    ensures Pow256(8) == 18_446_744_073_709_551_616
    ensures Pow256(16) == 340_282_366_920_938_463_463_374_607_431_768_211_456
  {
    assert Pow256(2) == 65_536;
    assert Pow256(4) == 256 * 256 * Pow256(2);
    assert Pow256(6) == 256 * 256 * Pow256(4);
    assert Pow256(8) == 256 * 256 * Pow256(6);
    assert Pow256(10) == 256 * 256 * Pow256(8);
    assert Pow256(12) == 256 * 256 * Pow256(10);
    assert Pow256(14) == 256 * 256 * Pow256(12);
    assert Pow256(16) == 256 * 256 * Pow256(14);
  }
}
