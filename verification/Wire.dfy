/** Bytes and the big-endian integers every encoder of the engine writes. */
module Wire {

  newtype byte = x: int | 0 <= x < 256

  const UINT16: nat := 0x1_0000
  const UINT32: nat := 0x1_0000_0000
  const UINT64: nat := 0x1_0000_0000_0000_0000

  /** Big-endian, width bytes, higher digits cut off. */
  function BigEndian(x: nat, width: nat): (b: seq<byte>)
    ensures |b| == width
  {
    if width == 0 then [] else BigEndian(x / 256, width - 1) + [(x % 256) as byte]
  }

  function Number(b: seq<byte>): nat {
    if b == [] then 0 else Number(b[..|b| - 1]) * 256 + b[|b| - 1] as nat
  }

  function Pow256(width: nat): (p: nat)
    ensures p > 0
  {
    if width == 0 then 1 else 256 * Pow256(width - 1)
  }

  lemma {:induction false} NumberOfBigEndian(x: nat, width: nat)
    requires x < Pow256(width)
    ensures Number(BigEndian(x, width)) == x
  {
    if width > 0 {
      NumberOfBigEndian(x / 256, width - 1);
      var b := BigEndian(x, width);
      assert b[..|b| - 1] == BigEndian(x / 256, width - 1);
    }
  }

  lemma {:induction false} BigEndianOfNumber(b: seq<byte>)
    ensures Number(b) < Pow256(|b|)
    ensures BigEndian(Number(b), |b|) == b
  {
    if b != [] {
      var n := |b| - 1;
      BigEndianOfNumber(b[..n]);
      assert Number(b) / 256 == Number(b[..n]);
      assert Number(b) % 256 == b[n] as nat;
    }
  }

  lemma Pow256Of8()
    ensures Pow256(8) == UINT64
  {
    assert Pow256(4) == 0x1_0000_0000;
    assert Pow256(8) == 256 * (256 * (256 * (256 * Pow256(4))));
  }

  lemma Powers()
    ensures Pow256(2) == UINT16 && Pow256(4) == UINT32 && Pow256(8) == UINT64
  {
    assert Pow256(2) == UINT16;
    assert Pow256(4) == UINT32;
    Pow256Of8();
  }

  lemma NoWrap(x: nat, size: nat)
    requires x < size
    ensures x % size == x
  {
  }
}
