/** Numbers as bytes in memory on a little-endian machine, and the conversions to network order. */
module ByteOrder {
  type Byte = n: nat | n < 0x100
  type UInt16 = n: nat | n < 0x1_0000
  type UInt32 = n: nat | n < 0x1_0000_0000

  function Limit(width: nat): (r: nat)
    ensures r > 0
  {
    if width == 0 then 1 else 256 * Limit(width - 1)
  }

  /** The number these bytes of memory hold. */
  function FromBytes(bs: seq<Byte>): nat {
    if bs == [] then 0 else bs[0] + 256 * FromBytes(bs[1..])
  }

  function ToBytes(n: nat, width: nat): (bs: seq<Byte>)
    ensures |bs| == width
  {
    if width == 0 then [] else [n % 256] + ToBytes(n / 256, width - 1)
  }

  lemma {:induction false} BytesRestored(bs: seq<Byte>)
    ensures FromBytes(bs) < Limit(|bs|) && ToBytes(FromBytes(bs), |bs|) == bs
  {
    if bs != [] {
      BytesRestored(bs[1..]);
      assert FromBytes(bs) / 256 == FromBytes(bs[1..]);
    }
  }

  lemma {:induction false} NumberRestored(n: nat, width: nat)
    requires n < Limit(width)
    ensures FromBytes(ToBytes(n, width)) == n
  {
    if width > 0 {
      NumberRestored(n / 256, width - 1);
    }
  }

  function Reversed(bs: seq<Byte>): (r: seq<Byte>)
    ensures |r| == |bs| && forall i :: 0 <= i < |bs| ==> r[i] == bs[|bs| - 1 - i]
  {
    seq(|bs|, i requires 0 <= i < |bs| => bs[|bs| - 1 - i])
  }

  /** The number with its bytes the other way round. */
  function Swapped(n: nat, width: nat): (r: nat)
    ensures r < Limit(width)
  {
    BytesRestored(Reversed(ToBytes(n, width)));
    FromBytes(Reversed(ToBytes(n, width)))
  }

  /** Swapping puts the most significant byte first in memory. */
  lemma SwappedInMemory(n: nat, width: nat)
    ensures ToBytes(Swapped(n, width), width) == Reversed(ToBytes(n, width))
  {
    BytesRestored(Reversed(ToBytes(n, width)));
  }

  /** Swapping twice changes nothing. */
  lemma SwappedTwice(n: nat, width: nat)
    requires n < Limit(width)
    ensures Swapped(Swapped(n, width), width) == n
  {
    SwappedInMemory(n, width);
    assert Reversed(Reversed(ToBytes(n, width))) == ToBytes(n, width);
    NumberRestored(n, width);
  }

  lemma Limits()
    ensures Limit(2) == 0x1_0000 && Limit(4) == 0x1_0000_0000
  {
    assert Limit(1) == 256;
    assert Limit(3) == 0x100_0000;
  }

  function Htons(n: UInt16): UInt16 {
    Limits();
    Swapped(n, 2)
  }

  function Ntohs(n: UInt16): UInt16 {
    Limits();
    Swapped(n, 2)
  }

  function Htonl(n: UInt32): UInt32 {
    Limits();
    Swapped(n, 4)
  }

  /** The layout of sixteen bits, and the conversions as arithmetic. */
  lemma TwoBytes(n: UInt16)
    ensures ToBytes(n, 2) == [n % 256, n / 256]
    ensures Htons(n) == n % 256 * 256 + n / 256 && Ntohs(n) == Htons(n)
  {
    assert ToBytes(n / 256, 1) == [n / 256] + ToBytes(n / 256 / 256, 0);
    var r := Reversed(ToBytes(n, 2));
    assert r == [n / 256, n % 256];
    assert r[1..] == [n % 256] && r[1..][1..] == [];
    assert FromBytes(r[1..]) == n % 256;
  }

  lemma FirstByte(n: nat, width: nat)
    requires width > 0
    ensures ToBytes(n, width) == [n % 256] + ToBytes(n / 256, width - 1)
  {
  }

  lemma Quotients(n: UInt32)
    ensures n / 256 / 256 == n / 0x1_0000 && n / 0x1_0000 / 256 == n / 0x100_0000 < 256
  {
  }

  /** The layout of thirty-two. */
  lemma FourBytes(n: UInt32)
    ensures ToBytes(n, 4) == [n % 256, n / 256 % 256, n / 0x1_0000 % 256, n / 0x100_0000]
  {
    hide ToBytes;
    var b, c, d: Byte := n / 256, n / 0x1_0000, (Quotients(n); n / 0x100_0000);
    Quotients(n);
    assert [n % 256] + ([b % 256] + ([c % 256] + [d])) == [n % 256, b % 256, c % 256, d];
    FirstByte(n, 4);
    FirstByte(b, 3);
    FirstByte(c, 2);
    FirstByte(d, 1);
    assert ToBytes(d, 1) == [d];
  }

  lemma FourReversed(a: Byte, b: Byte, c: Byte, d: Byte)
    ensures Reversed([a, b, c, d]) == [d, c, b, a]
  {
  }

  /** In network order, the most significant byte comes first. */
  lemma FourBytesInMemory(n: UInt32)
    ensures ToBytes(Htonl(n), 4) == [n / 0x100_0000, n / 0x1_0000 % 256, n / 256 % 256, n % 256]
  {
    hide ToBytes, Reversed;
    Quotients(n);
    FourBytes(n);
    SwappedInMemory(n, 4);
    FourReversed(n % 256, n / 256 % 256, n / 0x1_0000 % 256, n / 0x100_0000);
  }

  /** `htons` and `ntohs` cancel, both ways. */
  lemma NetworkOrderCancels(n: UInt16)
    ensures Ntohs(Htons(n)) == n && Htons(Ntohs(n)) == n
  {
    Limits();
    SwappedTwice(n, 2);
  }
}
