/** Pixel formats of a voxel volume and the byte layout of one voxel.

    The byte-aligned formats store a voxel as a little-endian integer of one or
    two bytes (the machine byte order of x86, which the volume assumes); Binary
    packs eight voxels into a byte, voxel `p` being bit `7 - p % 8` of byte
    `p / 8` (most significant bit first). Writing converts the value as a typed
    array does: modulo 2^8 or 2^16, reinterpreted as signed for Int8 / Int16. */
module PixelFormats {

  /** One byte of an `ArrayBuffer`. */
  newtype byte = x: int | 0 <= x < 256

  datatype PixelFormat = Unknown | UInt8 | Int8 | UInt16 | Int16 | Binary

  /** Storage per voxel in bits; the format table's bytes-per-voxel is this over 8. */
  function BitsPerVoxel(f: PixelFormat): nat
    requires f != Unknown
  {
    match f
    case UInt8 => 8
    case Int8 => 8
    case UInt16 => 16
    case Int16 => 16
    case Binary => 1
  }

  function MinLevel(f: PixelFormat): int
    requires f != Unknown
  {
    match f
    case UInt8 => 0
    case Int8 => -128
    case UInt16 => 0
    case Int16 => -32768
    case Binary => 0
  }

  function MaxLevel(f: PixelFormat): int
    requires f != Unknown
  {
    match f
    case UInt8 => 255
    case Int8 => 127
    case UInt16 => 65535
    case Int16 => 32767
    case Binary => 1
  }

  /** Bytes needed for `voxels` voxels (voxels * bpp). */
  function ByteLength(f: PixelFormat, voxels: nat): nat
    requires f != Unknown
  {
    voxels * BitsPerVoxel(f) / 8
  }

  /** Voxel `pos` lies inside a buffer of `len` bytes. */
  predicate Fits(f: PixelFormat, len: nat, pos: nat)
    requires f != Unknown
  {
    match f
    case UInt8 => pos < len
    case Int8 => pos < len
    case UInt16 => 2 * pos + 1 < len
    case Int16 => 2 * pos + 1 < len
    case Binary => pos / 8 < len
  }

  /** Every voxel of a buffer allocated for `n` voxels fits in it. */
  lemma FitsInBuffer(f: PixelFormat, n: nat, pos: nat)
    requires f != Unknown && pos < n
    requires f == Binary ==> n % 8 == 0
    ensures Fits(f, ByteLength(f, n), pos)
  {
  }

  function Signed8(u: int): int
  {
    if u >= 128 then u - 256 else u
  }

  function Signed16(u: int): int
  {
    if u >= 32768 then u - 65536 else u
  }

  /** The bit that holds voxel `pos` within its byte: the most significant first. */
  function BitIndex(pos: int): (k: nat)
    ensures k < 8
  {
    7 - pos % 8
  }

  /** `2^k`. */
  function TwoPow(k: nat): (r: nat)
    ensures r > 0
  {
    if k == 0 then 1 else 2 * TwoPow(k - 1)
  }

  /** Bit `k` of `b`, `(b >> k) & 1`. */
  function Bit(b: nat, k: nat): (r: int)
    ensures r == 0 || r == 1
  {
    if k == 0 then b % 2 else Bit(b / 2, k - 1)
  }

  /** `b` with bit `k` replaced by `bit`. */
  function WithBit(b: nat, k: nat, bit: int): nat
    requires bit == 0 || bit == 1
  {
    if k == 0 then b - b % 2 + bit else 2 * WithBit(b / 2, k - 1, bit) + b % 2
  }

  /** The low eight bits of the two's complement of `v`, i.e. `v` modulo 256. */
  function LowByte(v: int): byte
  {
    (v % 256) as byte
  }

  /** The Binary writer's update of one byte, `cur ^= (-value ^ cur) & (1 << k)`:
      bit `k` becomes bit `k` of `-value` and the other bits are kept. */
  function SetBit(cur: byte, value: int, k: nat): byte
    requires k < 8
  {
    WithBitBelow(cur as nat, k, Bit(LowByte(-value) as nat, k), 8);
    WithBit(cur as nat, k, Bit(LowByte(-value) as nat, k)) as byte
  }

  /** The voxel reader of each format. */
  function ReadVoxel(f: PixelFormat, bytes: seq<byte>, pos: nat): (r: int)
    requires f != Unknown && Fits(f, |bytes|, pos)
    ensures MinLevel(f) <= r <= MaxLevel(f)
  {
    match f
    case UInt8 => bytes[pos] as int
    case Int8 => Signed8(bytes[pos] as int)
    case UInt16 => bytes[2 * pos] as int + 256 * bytes[2 * pos + 1] as int
    case Int16 => Signed16(bytes[2 * pos] as int + 256 * bytes[2 * pos + 1] as int)
    case Binary => Bit(bytes[pos / 8] as nat, BitIndex(pos))
  }

  /** Whether byte `i` of a buffer holds (part of) voxel `pos`. */
  predicate HoldsVoxel(f: PixelFormat, pos: nat, i: nat)
  {
    match f
    case UInt16 => i == 2 * pos || i == 2 * pos + 1
    case Int16 => i == 2 * pos || i == 2 * pos + 1
    case Binary => i == pos / 8
    case _ => i == pos
  }

  /** The voxel writer of each format. */
  function WriteVoxel(f: PixelFormat, bytes: seq<byte>, pos: nat, v: int): (r: seq<byte>)
    requires f != Unknown && Fits(f, |bytes|, pos)
    ensures |r| == |bytes|
    ensures forall i :: 0 <= i < |bytes| && !HoldsVoxel(f, pos, i) ==> r[i] == bytes[i]
  {
    match f
    case UInt8 => bytes[pos := LowByte(v)]
    case Int8 => bytes[pos := LowByte(v)]
    case UInt16 => bytes[2 * pos := LowByte(v)][2 * pos + 1 := LowByte(v / 256)]
    case Int16 => bytes[2 * pos := LowByte(v)][2 * pos + 1 := LowByte(v / 256)]
    case Binary => bytes[pos / 8 := SetBit(bytes[pos / 8], v, BitIndex(pos))]
  }

  /** The value voxel `pos` reads after `v` is written to it. */
  function Stored(f: PixelFormat, pos: int, v: int): (r: int)
    requires f != Unknown
    ensures MinLevel(f) <= r <= MaxLevel(f)
    ensures MinLevel(f) <= v <= MaxLevel(f) ==> r == v
  {
    match f
    case UInt8 => v % 256
    case Int8 => Signed8(v % 256)
    case UInt16 => v % 65536
    case Int16 => Signed16(v % 65536)
    case Binary =>
      AllOnes(8, BitIndex(pos));
      Bit(LowByte(-v) as nat, BitIndex(pos))
  }

  lemma {:induction false} AllOnes(m: nat, k: nat)
    requires k < m
    ensures Bit(TwoPow(m) - 1, k) == 1 && Bit(0, k) == 0
  {
    if k > 0 {
      AllOnes(m - 1, k - 1);
    }
  }

  lemma {:induction false} WithBitBelow(b: nat, k: nat, bit: int, m: nat)
    requires bit == 0 || bit == 1
    requires k < m && b < TwoPow(m)
    ensures WithBit(b, k, bit) < TwoPow(m)
  {
    if k == 0 {
      assert TwoPow(m) == 2 * TwoPow(m - 1);
    } else {
      WithBitBelow(b / 2, k - 1, bit, m - 1);
    }
  }

  lemma {:induction false} WithBitSame(b: nat, k: nat, bit: int)
    requires bit == 0 || bit == 1
    ensures Bit(WithBit(b, k, bit), k) == bit
  {
    if k > 0 {
      WithBitSame(b / 2, k - 1, bit);
    }
  }

  lemma {:induction false} WithBitOther(b: nat, k: nat, bit: int, j: nat)
    requires (bit == 0 || bit == 1) && j != k
    ensures Bit(WithBit(b, k, bit), j) == Bit(b, j)
  {
    if k > 0 && j > 0 {
      WithBitOther(b / 2, k - 1, bit, j - 1);
    }
  }

  lemma Split16(v: int)
    ensures LowByte(v) as int + 256 * LowByte(v / 256) as int == v % 65536
  {
    var q := v / 256;
    assert v == 256 * q + v % 256;
    assert q == 256 * (q / 256) + q % 256;
    assert v == 65536 * (q / 256) + (256 * (q % 256) + v % 256);
  }

  /** Reading a voxel back gives the written value as the typed array converts it. */
  lemma ReadAfterWrite(f: PixelFormat, bytes: seq<byte>, pos: nat, v: int)
    requires f != Unknown && Fits(f, |bytes|, pos)
    ensures ReadVoxel(f, WriteVoxel(f, bytes, pos, v), pos) == Stored(f, pos, v)
  {
    match f
    case UInt8 =>
    case Int8 =>
    case UInt16 => Split16(v);
    case Int16 => Split16(v);
    case Binary =>
      WithBitSame(bytes[pos / 8] as nat, BitIndex(pos), Bit(LowByte(-v) as nat, BitIndex(pos)));
  }

  /** A value within the format's levels reads back exactly. */
  lemma ReadAfterWriteInLevels(f: PixelFormat, bytes: seq<byte>, pos: nat, v: int)
    requires f != Unknown && Fits(f, |bytes|, pos)
    requires MinLevel(f) <= v <= MaxLevel(f)
    ensures ReadVoxel(f, WriteVoxel(f, bytes, pos, v), pos) == v
  {
    ReadAfterWrite(f, bytes, pos, v);
  }

  /** Writing one voxel leaves every other voxel as it was. */
  lemma ReadAfterWriteOther(f: PixelFormat, bytes: seq<byte>, pos: nat, other: nat, v: int)
    requires f != Unknown && Fits(f, |bytes|, pos) && Fits(f, |bytes|, other)
    requires other != pos
    ensures ReadVoxel(f, WriteVoxel(f, bytes, pos, v), other) == ReadVoxel(f, bytes, other)
  {
    if f == Binary {
      BinaryWriteOther(bytes, pos, other, v);
    } else if f == UInt16 || f == Int16 {
      var w := WriteVoxel(f, bytes, pos, v);
      assert w[2 * other] == bytes[2 * other] && w[2 * other + 1] == bytes[2 * other + 1];
    }
  }

  lemma BinaryWriteOther(bytes: seq<byte>, pos: nat, other: nat, v: int)
    requires pos / 8 < |bytes| && other / 8 < |bytes| && other != pos
    ensures ReadVoxel(Binary, WriteVoxel(Binary, bytes, pos, v), other) == ReadVoxel(Binary, bytes, other)
  {
    var w := WriteVoxel(Binary, bytes, pos, v);
    if other / 8 == pos / 8 {
      SameByteOtherBit(pos, other);
      var b := bytes[pos / 8];
      WithBitOther(b as nat, BitIndex(pos), Bit(LowByte(-v) as nat, BitIndex(pos)), BitIndex(other));
      assert w[other / 8] == SetBit(b, v, BitIndex(pos));
    } else {
      assert w[other / 8] == bytes[other / 8];
    }
  }

  lemma SameByteOtherBit(pos: nat, other: nat)
    requires other != pos && other / 8 == pos / 8
    ensures BitIndex(other) != BitIndex(pos)
  {
    assert pos == 8 * (pos / 8) + pos % 8;
    assert other == 8 * (other / 8) + other % 8;
  }

  /** The low `m` bits of numbers below `2^m` determine them. */
  lemma {:induction false} BitsDetermine(a: nat, b: nat, m: nat)
    requires a < TwoPow(m) && b < TwoPow(m)
    requires forall k :: 0 <= k < m ==> Bit(a, k) == Bit(b, k)
    ensures a == b
  {
    if m > 0 {
      forall k | 0 <= k < m - 1
        ensures Bit(a / 2, k) == Bit(b / 2, k)
      {
        assert Bit(a, k + 1) == Bit(b, k + 1);
      }
      BitsDetermine(a / 2, b / 2, m - 1);
      assert Bit(a, 0) == Bit(b, 0);
    }
  }

  /** The voxels of a buffer determine its bytes: two buffers for `n` voxels
      that read alike at every voxel are equal. */
  lemma VoxelsDetermineBytes(f: PixelFormat, n: nat, b1: seq<byte>, b2: seq<byte>)
    requires f != Unknown && (f == Binary ==> n % 8 == 0)
    requires |b1| == |b2| == ByteLength(f, n)
    requires forall pos :: 0 <= pos < n ==> ReadVoxel(f, b1, pos) == ReadVoxel(f, b2, pos)
    ensures b1 == b2
  {
    forall i | 0 <= i < |b1|
      ensures b1[i] == b2[i]
    {
      ByteDeterminedByVoxels(f, n, b1, b2, i);
    }
  }

  lemma ByteDeterminedByVoxels(f: PixelFormat, n: nat, b1: seq<byte>, b2: seq<byte>, i: nat)
    requires f != Unknown && (f == Binary ==> n % 8 == 0)
    requires |b1| == |b2| == ByteLength(f, n) && i < |b1|
    requires forall pos :: 0 <= pos < n ==> ReadVoxel(f, b1, pos) == ReadVoxel(f, b2, pos)
    ensures b1[i] == b2[i]
  {
    if f == Binary {
      BinaryByteDetermined(n, b1, b2, i);
    } else if f == UInt16 || f == Int16 {
      WideByteDetermined(f, n, b1, b2, i);
    } else {
      assert ReadVoxel(f, b1, i) == ReadVoxel(f, b2, i);
    }
  }

  lemma WideByteDetermined(f: PixelFormat, n: nat, b1: seq<byte>, b2: seq<byte>, i: nat)
    requires f == UInt16 || f == Int16
    requires |b1| == |b2| == 2 * n && i < |b1|
    requires forall pos :: 0 <= pos < n ==> ReadVoxel(f, b1, pos) == ReadVoxel(f, b2, pos)
    ensures b1[i] == b2[i]
  {
    var p := i / 2;
    assert p < n && (i == 2 * p || i == 2 * p + 1);
    WideVoxelDetermined(f, b1, b2, p);
  }

  lemma WideVoxelDetermined(f: PixelFormat, b1: seq<byte>, b2: seq<byte>, p: nat)
    requires f == UInt16 || f == Int16
    requires 2 * p + 1 < |b1| == |b2|
    requires ReadVoxel(f, b1, p) == ReadVoxel(f, b2, p)
    ensures b1[2 * p] == b2[2 * p] && b1[2 * p + 1] == b2[2 * p + 1]
  {
  }

  lemma BinaryByteDetermined(n: nat, b1: seq<byte>, b2: seq<byte>, i: nat)
    requires n % 8 == 0 && |b1| == |b2| == n / 8 && i < |b1|
    requires forall pos :: 0 <= pos < n ==> ReadVoxel(Binary, b1, pos) == ReadVoxel(Binary, b2, pos)
    ensures b1[i] == b2[i]
  {
    var x1, x2 := b1[i] as nat, b2[i] as nat;
    forall k | 0 <= k < 8
      ensures Bit(x1, k) == Bit(x2, k)
    {
      var pos := 8 * i + (7 - k);
      assert pos / 8 == i && BitIndex(pos) == k;
      assert ReadVoxel(Binary, b1, pos) == ReadVoxel(Binary, b2, pos);
    }
    assert TwoPow(8) == 256;
    BitsDetermine(x1, x2, 8);
  }
}
