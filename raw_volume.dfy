/** The value-level view of a voxel volume: its dimension, the linear voxel
    index `x + (y + z * ry) * rx`, reading a voxel from the byte buffer, the
    trilinear interpolation with its far-edge clamp, the window level/width
    mapping, and the byte range of one z-slice. The volume class uses these as
    the specification of its methods. */
module RawVolume {
  import opened PixelFormats

  /** An integer triple: a voxel count per axis, a voxel position or an offset. */
  datatype Coord = Coord(x: int, y: int, z: int)

  /** A cuboid region: `origin` and the number of voxels along each axis. */
  datatype Box = Box(origin: Coord, size: Coord)

  /** The largest number of voxels a volume may hold. */
  const MaxVoxels: int := 1024 * 1024 * 1024

  function VoxelCount(d: Coord): int
  {
    d.x * d.y * d.z
  }

  /** A dimension and format that `setDimension` accepts. */
  predicate ValidDimension(d: Coord, f: PixelFormat)
  {
    f != Unknown && d.x > 0 && d.y > 0 && d.z > 0 && VoxelCount(d) <= MaxVoxels
    && (f == Binary ==> (d.x * d.y) % 8 == 0)
  }

  /** A buffer that holds a whole volume of dimension `d` in format `f`. */
  predicate Shaped(f: PixelFormat, d: Coord, bytes: seq<byte>)
  {
    ValidDimension(d, f) && |bytes| == ByteLength(f, VoxelCount(d))
  }

  predicate InVolume(d: Coord, x: int, y: int, z: int)
  {
    0 <= x < d.x && 0 <= y < d.y && 0 <= z < d.z
  }

  predicate InBox(b: Box, x: int, y: int, z: int)
  {
    b.origin.x <= x < b.origin.x + b.size.x
    && b.origin.y <= y < b.origin.y + b.size.y
    && b.origin.z <= z < b.origin.z + b.size.z
  }

  /** The box lies within a volume of dimension `d`. */
  predicate BoxWithin(b: Box, d: Coord)
  {
    0 <= b.origin.x && 0 <= b.size.x && b.origin.x + b.size.x <= d.x
    && 0 <= b.origin.y && 0 <= b.size.y && b.origin.y + b.size.y <= d.y
    && 0 <= b.origin.z && 0 <= b.size.z && b.origin.z + b.size.z <= d.z
  }

  /** The linear voxel index used by every accessor. */
  function Index(d: Coord, x: int, y: int, z: int): int
  {
    x + (y + z * d.y) * d.x
  }

  // ---------------------------------------------------------------------------
  // Index arithmetic

  /** `lo + hi * w` with `0 <= lo < w` determines `lo` and `hi`. */
  lemma MixedRadixUnique(lo1: int, hi1: int, lo2: int, hi2: int, w: int)
    requires 0 <= lo1 < w && 0 <= lo2 < w
    requires lo1 + hi1 * w == lo2 + hi2 * w
    ensures lo1 == lo2 && hi1 == hi2
  {
    if hi1 < hi2 {
      MulGap(w, hi1, hi2);
    } else if hi2 < hi1 {
      MulGap(w, hi2, hi1);
    }
  }

  lemma MulNonnegative'(a: int, b: int)
    requires a >= 0 && b >= 0
    ensures a * b >= 0
  {
  }

  /** Multiples of `l` at distinct factors are at least `l` apart. */
  lemma MulGap(l: int, a: int, b: int)
    requires l >= 0 && a < b
    ensures a * l + l <= b * l && l * a + l <= l * b
  {
    var k := b - a - 1;
    MulNonnegative'(k, l);
    assert b * l == a * l + l + k * l;
  }

  /** `lo + hi * w` of digits below `w` and `n` stays below `w * n`. */
  lemma MixedRadixBound(lo: int, hi: int, w: int, n: int)
    requires 0 <= lo < w && 0 <= hi < n
    ensures 0 <= lo + hi * w < w * n
  {
    assert hi * w <= (n - 1) * w;
    assert (n - 1) * w == w * n - w;
  }

  /** Row-major position `row * w + col` splits back into its row and column. */
  lemma RowMajor(row: int, col: int, w: int)
    requires 0 <= col < w
    ensures (row * w + col) / w == row && (row * w + col) % w == col
  {
    var k := row * w + col;
    assert k == (k / w) * w + k % w;
    MixedRadixUnique(col, row, k % w, k / w, w);
  }

  lemma IndexInRange(d: Coord, x: int, y: int, z: int)
    requires InVolume(d, x, y, z)
    ensures 0 <= Index(d, x, y, z) < VoxelCount(d)
  {
    MixedRadixBound(y, z, d.y, d.z);
    MixedRadixBound(x, y + z * d.y, d.x, d.y * d.z);
    assert d.x * (d.y * d.z) == VoxelCount(d);
  }

  /** Distinct voxels have distinct indices. */
  lemma IndexInjective(d: Coord, x1: int, y1: int, z1: int, x2: int, y2: int, z2: int)
    requires InVolume(d, x1, y1, z1) && InVolume(d, x2, y2, z2)
    requires Index(d, x1, y1, z1) == Index(d, x2, y2, z2)
    ensures x1 == x2 && y1 == y2 && z1 == z2
  {
    MixedRadixUnique(x1, y1 + z1 * d.y, x2, y2 + z2 * d.y, d.x);
    MixedRadixUnique(y1, z1, y2, z2, d.y);
  }

  /** The number of voxels times bytes per voxel splits over the slices. */
  /** Bytes per voxel count, format by format. */
  lemma ByteLengthForm(f: PixelFormat, n: nat)
    requires f != Unknown
    ensures ByteLength(f, n) == if f == Binary then n / 8 else if f == UInt16 || f == Int16 then 2 * n else n
  {
  }

  /** The number of voxels times bytes per voxel splits over the slices. */
  lemma ByteLengthOfSlices(f: PixelFormat, area: nat, slices: nat)
    requires f != Unknown && (f == Binary ==> area % 8 == 0)
    ensures ByteLength(f, area * slices) == ByteLength(f, area) * slices
  {
    ByteLengthForm(f, area * slices);
    ByteLengthForm(f, area);
    if f == Binary {
      var q := area / 8;
      assert area == 8 * q;
      assert area * slices == 8 * (q * slices);
      assert (area * slices) / 8 == q * slices;
    } else if f == UInt16 || f == Int16 {
      assert 2 * (area * slices) == (2 * area) * slices;
    }
  }

  lemma VoxelCountSplit(d: Coord)
    ensures VoxelCount(d) == (d.x * d.y) * d.z
  {
  }

  lemma VoxelFits(f: PixelFormat, d: Coord, bytes: seq<byte>, x: int, y: int, z: int)
    requires Shaped(f, d, bytes) && InVolume(d, x, y, z)
    ensures 0 <= Index(d, x, y, z) && Fits(f, |bytes|, Index(d, x, y, z))
  {
    IndexInRange(d, x, y, z);
    VoxelCountSplit(d);
    if f == Binary {
      WholeBytes(d.x * d.y, d.z);
    }
    FitsInBuffer(f, VoxelCount(d), Index(d, x, y, z));
  }

  /** Slices of a whole number of bytes make a whole number of bytes. */
  lemma WholeBytes(a: int, n: int)
    requires a % 8 == 0
    ensures (a * n) % 8 == 0
  {
    assert a * n == 8 * ((a / 8) * n) by {
      assert a == 8 * (a / 8);
    }
  }

  // ---------------------------------------------------------------------------
  // Reading and writing one voxel

  /** `getPixelAt(x, y, z)`. */
  function VoxelAt(f: PixelFormat, d: Coord, bytes: seq<byte>, x: int, y: int, z: int): int
    requires Shaped(f, d, bytes) && InVolume(d, x, y, z)
  {
    VoxelFits(f, d, bytes, x, y, z);
    ReadVoxel(f, bytes, Index(d, x, y, z))
  }

  /** The buffer after `writePixelAt(v, x, y, z)`. */
  function WriteAt(f: PixelFormat, d: Coord, bytes: seq<byte>, x: int, y: int, z: int, v: int): (r: seq<byte>)
    requires Shaped(f, d, bytes) && InVolume(d, x, y, z)
    ensures Shaped(f, d, r)
  {
    VoxelFits(f, d, bytes, x, y, z);
    WriteVoxel(f, bytes, Index(d, x, y, z), v)
  }

  /** `writePixelAt(v, x, y, z)` changes voxel (x, y, z) to the stored form of `v`
      and no other voxel. */
  lemma WriteAtEffect(f: PixelFormat, d: Coord, bytes: seq<byte>, x0: int, y0: int, z0: int, v: int)
    requires Shaped(f, d, bytes) && InVolume(d, x0, y0, z0)
    ensures forall x, y, z :: InVolume(d, x, y, z) ==>
      VoxelAt(f, d, WriteAt(f, d, bytes, x0, y0, z0, v), x, y, z)
      == if x == x0 && y == y0 && z == z0 then Stored(f, Index(d, x0, y0, z0), v)
         else VoxelAt(f, d, bytes, x, y, z)
  {
    var w := WriteAt(f, d, bytes, x0, y0, z0, v);
    forall x, y, z | InVolume(d, x, y, z)
      ensures VoxelAt(f, d, w, x, y, z)
        == if x == x0 && y == y0 && z == z0 then Stored(f, Index(d, x0, y0, z0), v)
           else VoxelAt(f, d, bytes, x, y, z)
    {
      VoxelFits(f, d, bytes, x, y, z);
      VoxelFits(f, d, bytes, x0, y0, z0);
      if x == x0 && y == y0 && z == z0 {
        ReadAfterWrite(f, bytes, Index(d, x0, y0, z0), v);
      } else {
        if Index(d, x, y, z) == Index(d, x0, y0, z0) {
          IndexInjective(d, x, y, z, x0, y0, z0);
        }
        ReadAfterWriteOther(f, bytes, Index(d, x0, y0, z0), Index(d, x, y, z), v);
      }
    }
  }

  /** For a value within the format's levels, `getPixelAt` after `writePixelAt`
      returns that value. */
  lemma WriteThenRead(f: PixelFormat, d: Coord, bytes: seq<byte>, x: int, y: int, z: int, v: int)
    requires Shaped(f, d, bytes) && InVolume(d, x, y, z)
    requires MinLevel(f) <= v <= MaxLevel(f)
    ensures VoxelAt(f, d, WriteAt(f, d, bytes, x, y, z, v), x, y, z) == v
  {
    WriteAtEffect(f, d, bytes, x, y, z, v);
  }

  /** Every voxel reads a value within its format's levels. */
  lemma VoxelInLevels(f: PixelFormat, d: Coord, bytes: seq<byte>, x: int, y: int, z: int)
    requires Shaped(f, d, bytes) && InVolume(d, x, y, z)
    ensures MinLevel(f) <= VoxelAt(f, d, bytes, x, y, z) <= MaxLevel(f)
  {
    VoxelFits(f, d, bytes, x, y, z);
  }

  // ---------------------------------------------------------------------------
  // Interpolation

  /** The far-edge clamp of one coordinate `c` in `[0, n - 1]`: its floor, except
      that at or beyond the last voxel the cell is `n - 2` with the coordinate
      moved to `n - 1`. */
  function EdgeClamp(c: real, n: int): (r: (int, real))
    requires n >= 2 && 0.0 <= c <= (n - 1) as real
    ensures 0 <= r.0 <= n - 2
    ensures r.0 as real <= r.1 <= r.0 as real + 1.0
  {
    var i := c.Floor;
    if i >= n - 1 then (n - 2, (n - 1) as real) else (i, c)
  }

  /** Linear blend from `a` (weight 0) to `b` (weight 1). */
  function Lerp(a: real, b: real, w: real): real
  {
    a * (1.0 - w) + b * w
  }

  lemma LerpEnds(a: real, b: real)
    ensures Lerp(a, b, 0.0) == a && Lerp(a, b, 1.0) == b
  {
  }

  /** A blend with a weight in [0, 1] stays between the bounds of its ends. */
  lemma LerpBounds(a: real, b: real, w: real, lo: real, hi: real)
    requires lo <= a <= hi && lo <= b <= hi && 0.0 <= w <= 1.0
    ensures lo <= Lerp(a, b, w) <= hi
  {
    assert Lerp(a, b, w) - lo == (a - lo) * (1.0 - w) + (b - lo) * w;
    assert hi - Lerp(a, b, w) == (hi - a) * (1.0 - w) + (hi - b) * w;
    MulNonnegative(a - lo, 1.0 - w);
    MulNonnegative(b - lo, w);
    MulNonnegative(hi - a, 1.0 - w);
    MulNonnegative(hi - b, w);
  }

  lemma MulNonnegative(a: real, b: real)
    requires a >= 0.0 && b >= 0.0
    ensures a * b >= 0.0
  {
  }

  /** The four-voxel interpolation within axial slice `iz` (`getAxialInterpolation`). */
  function AxialInterpolation(f: PixelFormat, d: Coord, bytes: seq<byte>,
                              ix: int, x: real, iy: int, y: real, iz: int): real
    requires Shaped(f, d, bytes)
    requires 0 <= ix && ix + 1 < d.x && 0 <= iy && iy + 1 < d.y && 0 <= iz < d.z
  {
    var p0 := VoxelAt(f, d, bytes, ix, iy, iz) as real;
    var p1 := VoxelAt(f, d, bytes, ix + 1, iy, iz) as real;
    var p2 := VoxelAt(f, d, bytes, ix, iy + 1, iz) as real;
    var p3 := VoxelAt(f, d, bytes, ix + 1, iy + 1, iz) as real;
    // The source's `p0 * (1 - wx) + p1 * wx`, and likewise along y.
    var wx := x - ix as real;
    var wy := y - iy as real;
    Lerp(Lerp(p0, p1, wx), Lerp(p2, p3, wx), wy)
  }

  /** Every axis has at least two voxels, which the interpolation needs. */
  predicate Interpolable(d: Coord)
  {
    d.x >= 2 && d.y >= 2 && d.z >= 2
  }

  predicate InRealBounds(d: Coord, x: real, y: real, z: real)
  {
    0.0 <= x <= (d.x - 1) as real && 0.0 <= y <= (d.y - 1) as real && 0.0 <= z <= (d.z - 1) as real
  }

  /** `getPixelWithInterpolation(x, y, z)`: 0 outside the volume, otherwise the
      trilinear blend of the eight surrounding voxels. */
  function Interpolate(f: PixelFormat, d: Coord, bytes: seq<byte>, x: real, y: real, z: real): (r: real)
    requires Shaped(f, d, bytes) && Interpolable(d)
    ensures !InRealBounds(d, x, y, z) ==> r == 0.0
  {
    if !InRealBounds(d, x, y, z) then 0.0
    else
      var cz := EdgeClamp(z, d.z);
      var cx := EdgeClamp(x, d.x);
      var cy := EdgeClamp(y, d.y);
      var v1 := AxialInterpolation(f, d, bytes, cx.0, cx.1, cy.0, cy.1, cz.0);
      var v2 := AxialInterpolation(f, d, bytes, cx.0, cx.1, cy.0, cy.1, cz.0 + 1);
      Lerp(v1, v2, cz.1 - cz.0 as real)
  }

  /** At an integer coordinate the clamp selects either that voxel with weight 0
      or, on the far edge, the one before it with weight 1. */
  lemma EdgeClampAtInteger(c: int, n: int)
    requires n >= 2 && 0 <= c <= n - 1
    ensures var r := EdgeClamp(c as real, n);
      (r.0 == c && r.1 == c as real) || (c == n - 1 && r.0 == n - 2 && r.1 == (n - 1) as real)
  {
    assert (c as real).Floor == c;
  }

  /** At integer coordinates the interpolation reads the voxel itself, including on
      the far edge of every axis. */
  lemma InterpolateAtVoxel(f: PixelFormat, d: Coord, bytes: seq<byte>, x: int, y: int, z: int)
    requires Shaped(f, d, bytes) && Interpolable(d) && InVolume(d, x, y, z)
    ensures Interpolate(f, d, bytes, x as real, y as real, z as real) == VoxelAt(f, d, bytes, x, y, z) as real
  {
    EdgeClampAtInteger(x, d.x);
    EdgeClampAtInteger(y, d.y);
    EdgeClampAtInteger(z, d.z);
    var cx := EdgeClamp(x as real, d.x);
    var cy := EdgeClamp(y as real, d.y);
    var cz := EdgeClamp(z as real, d.z);
    assert InRealBounds(d, x as real, y as real, z as real);
    InterpolateInside(f, d, bytes, x as real, y as real, z as real);
    TrilinearAtVoxel(f, d, bytes, cx.0, cx.1, cy.0, cy.1, cz.0, cz.1, x, y, z);
  }

  /** Inside the bounds, the blend of the two axial interpolations around `z`. */
  lemma InterpolateInside(f: PixelFormat, d: Coord, bytes: seq<byte>, x: real, y: real, z: real)
    requires Shaped(f, d, bytes) && Interpolable(d) && InRealBounds(d, x, y, z)
    ensures var cx, cy, cz := EdgeClamp(x, d.x), EdgeClamp(y, d.y), EdgeClamp(z, d.z);
      Interpolate(f, d, bytes, x, y, z)
      == Lerp(AxialInterpolation(f, d, bytes, cx.0, cx.1, cy.0, cy.1, cz.0),
              AxialInterpolation(f, d, bytes, cx.0, cx.1, cy.0, cy.1, cz.0 + 1), cz.1 - cz.0 as real)
  {
  }

  lemma TrilinearAtVoxel(f: PixelFormat, d: Coord, bytes: seq<byte>,
                         ix: int, rx: real, iy: int, ry: real, iz: int, rz: real, x: int, y: int, z: int)
    requires Shaped(f, d, bytes)
    requires 0 <= ix && ix + 1 < d.x && 0 <= iy && iy + 1 < d.y && 0 <= iz && iz + 1 < d.z
    requires (ix == x || ix + 1 == x) && rx == x as real
    requires (iy == y || iy + 1 == y) && ry == y as real
    requires (iz == z || iz + 1 == z) && rz == z as real
    ensures Lerp(AxialInterpolation(f, d, bytes, ix, rx, iy, ry, iz),
                 AxialInterpolation(f, d, bytes, ix, rx, iy, ry, iz + 1), rz - iz as real)
         == VoxelAt(f, d, bytes, x, y, z) as real
  {
    var v1 := AxialInterpolation(f, d, bytes, ix, rx, iy, ry, iz);
    var v2 := AxialInterpolation(f, d, bytes, ix, rx, iy, ry, iz + 1);
    if iz == z {
      AxialAtVoxel(f, d, bytes, ix, rx, iy, ry, iz, x, y);
    } else {
      AxialAtVoxel(f, d, bytes, ix, rx, iy, ry, iz + 1, x, y);
    }
    LerpEnds(v1, v2);
  }

  lemma AxialAtVoxel(f: PixelFormat, d: Coord, bytes: seq<byte>,
                     ix: int, rx: real, iy: int, ry: real, iz: int, x: int, y: int)
    requires Shaped(f, d, bytes)
    requires 0 <= ix && ix + 1 < d.x && 0 <= iy && iy + 1 < d.y && 0 <= iz < d.z
    requires (ix == x || ix + 1 == x) && rx == x as real
    requires (iy == y || iy + 1 == y) && ry == y as real
    ensures AxialInterpolation(f, d, bytes, ix, rx, iy, ry, iz) == VoxelAt(f, d, bytes, x, y, iz) as real
  {
    var p0 := VoxelAt(f, d, bytes, ix, iy, iz) as real;
    var p1 := VoxelAt(f, d, bytes, ix + 1, iy, iz) as real;
    var p2 := VoxelAt(f, d, bytes, ix, iy + 1, iz) as real;
    var p3 := VoxelAt(f, d, bytes, ix + 1, iy + 1, iz) as real;
    LerpEnds(p0, p1);
    LerpEnds(p2, p3);
    LerpEnds(Lerp(p0, p1, rx - ix as real), Lerp(p2, p3, rx - ix as real));
  }

  lemma AxialInLevels(f: PixelFormat, d: Coord, bytes: seq<byte>, ix: int, x: real, iy: int, y: real, iz: int)
    requires Shaped(f, d, bytes)
    requires 0 <= ix && ix + 1 < d.x && 0 <= iy && iy + 1 < d.y && 0 <= iz < d.z
    requires ix as real <= x <= ix as real + 1.0 && iy as real <= y <= iy as real + 1.0
    ensures MinLevel(f) as real <= AxialInterpolation(f, d, bytes, ix, x, iy, y, iz) <= MaxLevel(f) as real
  {
    var lo, hi := MinLevel(f) as real, MaxLevel(f) as real;
    VoxelInLevels(f, d, bytes, ix, iy, iz);
    VoxelInLevels(f, d, bytes, ix + 1, iy, iz);
    VoxelInLevels(f, d, bytes, ix, iy + 1, iz);
    VoxelInLevels(f, d, bytes, ix + 1, iy + 1, iz);
    var p0 := VoxelAt(f, d, bytes, ix, iy, iz) as real;
    var p1 := VoxelAt(f, d, bytes, ix + 1, iy, iz) as real;
    var p2 := VoxelAt(f, d, bytes, ix, iy + 1, iz) as real;
    var p3 := VoxelAt(f, d, bytes, ix + 1, iy + 1, iz) as real;
    var wx := x - ix as real;
    LerpBounds(p0, p1, wx, lo, hi);
    LerpBounds(p2, p3, wx, lo, hi);
    LerpBounds(Lerp(p0, p1, wx), Lerp(p2, p3, wx), y - iy as real, lo, hi);
  }

  /** The interpolated value never leaves the format's levels. */
  lemma InterpolateInLevels(f: PixelFormat, d: Coord, bytes: seq<byte>, x: real, y: real, z: real)
    requires Shaped(f, d, bytes) && Interpolable(d)
    ensures MinLevel(f) as real <= Interpolate(f, d, bytes, x, y, z) <= MaxLevel(f) as real
  {
    if InRealBounds(d, x, y, z) {
      InterpolateInside(f, d, bytes, x, y, z);
      var cz := EdgeClamp(z, d.z);
      var cx := EdgeClamp(x, d.x);
      var cy := EdgeClamp(y, d.y);
      AxialInLevels(f, d, bytes, cx.0, cx.1, cy.0, cy.1, cz.0);
      AxialInLevels(f, d, bytes, cx.0, cx.1, cy.0, cy.1, cz.0 + 1);
      var v1 := AxialInterpolation(f, d, bytes, cx.0, cx.1, cy.0, cy.1, cz.0);
      var v2 := AxialInterpolation(f, d, bytes, cx.0, cx.1, cy.0, cy.1, cz.0 + 1);
      LerpBounds(v1, v2, cz.1 - cz.0 as real, MinLevel(f) as real, MaxLevel(f) as real);
    }
  }

  // ---------------------------------------------------------------------------
  // Window level / width

  /** `Math.round`: the nearest integer, halves rounded up. */
  function Round(v: real): (r: int)
    ensures r as real - 0.5 <= v < r as real + 0.5
  {
    (v + 0.5).Floor
  }

  lemma RoundOfInteger(n: int)
    ensures Round(n as real) == n
  {
  }

  lemma RoundMonotonic(a: real, b: real)
    requires a <= b
    ensures Round(a) <= Round(b)
  {
  }

  /** `applyWindow(width, level, pixel)`: the pixel mapped linearly so that
      `level - width / 2` goes to 0 and `level + width / 2` to 255, rounded and
      clamped to a byte. */
  function ApplyWindow(width: real, level: real, pixel: real): (r: int)
    requires width != 0.0
    ensures 0 <= r <= 255
  {
    var value := Round((pixel - level + width / 2.0) * (255.0 / width));
    if value > 255 then 255 else if value < 0 then 0 else value
  }

  /** With a positive width, a brighter pixel never maps darker. */
  lemma ApplyWindowMonotonic(width: real, level: real, p1: real, p2: real)
    requires width > 0.0 && p1 <= p2
    ensures ApplyWindow(width, level, p1) <= ApplyWindow(width, level, p2)
  {
    var k := 255.0 / width;
    MulMonotonic(p1 - level + width / 2.0, p2 - level + width / 2.0, k);
    RoundMonotonic((p1 - level + width / 2.0) * k, (p2 - level + width / 2.0) * k);
  }

  /** Pixels at or below the bottom of the window map to 0, those at or above its
      top to 255. */
  lemma ApplyWindowSaturates(width: real, level: real, pixel: real)
    requires width > 0.0
    ensures pixel <= level - width / 2.0 ==> ApplyWindow(width, level, pixel) == 0
    ensures pixel >= level + width / 2.0 ==> ApplyWindow(width, level, pixel) == 255
  {
    assert width * (255.0 / width) == 255.0;
    if pixel <= level - width / 2.0 {
      MulMonotonic(pixel - level + width / 2.0, 0.0, 255.0 / width);
    }
    if pixel >= level + width / 2.0 {
      ScaledAbove(pixel - level + width / 2.0, 255.0 / width, width);
    }
  }

  lemma ScaledAbove(a: real, k: real, w: real)
    requires a >= w && k >= 0.0 && w * k == 255.0
    ensures a * k >= 255.0
  {
    MulMonotonic(w, a, k);
  }

  lemma MulMonotonic(a: real, b: real, k: real)
    requires a <= b && k >= 0.0
    ensures a * k <= b * k
  {
    assert b * k - a * k == (b - a) * k;
  }

  /** The window's centre maps to 128 (127.5 rounded up). */
  lemma ApplyWindowCentre(width: real, level: real)
    requires width != 0.0
    ensures ApplyWindow(width, level, level) == 128
  {
    assert (level - level + width / 2.0) * (255.0 / width) == 127.5;
  }

  // ---------------------------------------------------------------------------
  // Slices

  /** Bytes of one z-slice, `rx * ry * bpp`. */
  function SliceLength(f: PixelFormat, d: Coord): nat
    requires ValidDimension(d, f)
  {
    ByteLength(f, d.x * d.y)
  }

  lemma SliceBounds(f: PixelFormat, d: Coord, bytes: seq<byte>, z: int)
    requires Shaped(f, d, bytes) && 0 <= z < d.z
    ensures 0 <= SliceLength(f, d) * z && SliceLength(f, d) * z + SliceLength(f, d) <= |bytes|
  {
    var l := SliceLength(f, d);
    ByteLengthOfSlices(f, d.x * d.y, d.z);
    assert |bytes| == l * d.z;
    SliceRange(l, z, d.z, |bytes|);
  }

  /** Slice `z` of `n` slices of `l` bytes lies inside the `l * n` bytes. */
  lemma SliceRange(l: nat, z: int, n: int, len: int)
    requires 0 <= z < n && len == l * n
    ensures 0 <= l * z && l * z + l <= len
  {
    MulNonnegative'(l, z);
    MulGap(l, z, n);
  }

  /** The bytes of slice `z` (`getSingleImage(z)`). */
  function SliceBytes(f: PixelFormat, d: Coord, bytes: seq<byte>, z: int): (r: seq<byte>)
    requires Shaped(f, d, bytes) && 0 <= z < d.z
    ensures |r| == SliceLength(f, d)
  {
    SliceBounds(f, d, bytes, z);
    var l := SliceLength(f, d);
    bytes[l * z .. l * z + l]
  }

  /** The buffer after `insertSingleImage(z, image)`: the first slice-length bytes
      of `image` replace slice `z`. */
  function WithSlice(f: PixelFormat, d: Coord, bytes: seq<byte>, z: int, image: seq<byte>): (r: seq<byte>)
    requires Shaped(f, d, bytes) && 0 <= z < d.z && |image| >= SliceLength(f, d)
    ensures Shaped(f, d, r)
  {
    SliceBounds(f, d, bytes, z);
    var l := SliceLength(f, d);
    bytes[..l * z] + image[..l] + bytes[l * z + l..]
  }

  /** Reading back an inserted slice gives the inserted bytes. */
  lemma SliceOfWithSlice(f: PixelFormat, d: Coord, bytes: seq<byte>, z: int, image: seq<byte>)
    requires Shaped(f, d, bytes) && 0 <= z < d.z && |image| >= SliceLength(f, d)
    ensures SliceBytes(f, d, WithSlice(f, d, bytes, z, image), z) == image[..SliceLength(f, d)]
  {
    SliceBounds(f, d, bytes, z);
  }

  /** Replacing bytes `[a, a + |mid|)` leaves a disjoint range `[c, e)` as it was. */
  lemma SpliceKeepsOther(bytes: seq<byte>, mid: seq<byte>, a: int, c: int, e: int)
    requires 0 <= a && a + |mid| <= |bytes| && 0 <= c <= e <= |bytes|
    requires e <= a || a + |mid| <= c
    ensures (bytes[..a] + mid + bytes[a + |mid|..])[c..e] == bytes[c..e]
  {
  }

  /** Inserting a slice leaves every other slice as it was. */
  lemma OtherSliceOfWithSlice(f: PixelFormat, d: Coord, bytes: seq<byte>, z: int, image: seq<byte>, z2: int)
    requires Shaped(f, d, bytes) && 0 <= z < d.z && |image| >= SliceLength(f, d)
    requires 0 <= z2 < d.z && z2 != z
    ensures SliceBytes(f, d, WithSlice(f, d, bytes, z, image), z2) == SliceBytes(f, d, bytes, z2)
  {
    var l := SliceLength(f, d);
    SliceBounds(f, d, bytes, z);
    SliceBounds(f, d, bytes, z2);
    if z2 < z {
      MulGap(l, z2, z);
    } else {
      MulGap(l, z, z2);
    }
    SpliceKeepsOther(bytes, image[..l], l * z, l * z2, l * z2 + l);
  }

  /** An 8×8×8 Binary volume whose slice 0 starts with the byte 0b10101010 reads
      1, 0, 1, 0 at x = 0..3 of its first row: bits are taken most significant
      first. */
  lemma BinarySliceBitOrder(bytes: seq<byte>)
    requires Shaped(Binary, Coord(8, 8, 8), bytes)
    ensures var d := Coord(8, 8, 8);
      var w := WithSlice(Binary, d, bytes, 0, [0xAA, 0, 0, 0, 0, 0, 0, 0]);
      VoxelAt(Binary, d, w, 0, 0, 0) == 1 && VoxelAt(Binary, d, w, 1, 0, 0) == 0
      && VoxelAt(Binary, d, w, 2, 0, 0) == 1 && VoxelAt(Binary, d, w, 3, 0, 0) == 0
  {
    var d := Coord(8, 8, 8);
    var image: seq<byte> := [0xAA, 0, 0, 0, 0, 0, 0, 0];
    assert SliceLength(Binary, d) == 8;
    var w := WithSlice(Binary, d, bytes, 0, image);
    assert w[0] == 0xAA;
    AlternatingFirstRow(w);
  }

  /** The first four voxels of a buffer starting with 0b10101010. */
  lemma AlternatingFirstRow(w: seq<byte>)
    requires Shaped(Binary, Coord(8, 8, 8), w) && |w| > 0 && w[0] == 0xAA
    ensures var d := Coord(8, 8, 8);
      VoxelAt(Binary, d, w, 0, 0, 0) == 1 && VoxelAt(Binary, d, w, 1, 0, 0) == 0
      && VoxelAt(Binary, d, w, 2, 0, 0) == 1 && VoxelAt(Binary, d, w, 3, 0, 0) == 0
  {
    BitsOfAlternating();
    FirstRowBit(w, 0);
    FirstRowBit(w, 1);
    FirstRowBit(w, 2);
    FirstRowBit(w, 3);
  }

  lemma BitsOfAlternating()
    ensures Bit(0xAA, 7) == 1 && Bit(0xAA, 6) == 0 && Bit(0xAA, 5) == 1 && Bit(0xAA, 4) == 0
  {
    assert Bit(0xAA / 16, 3) == 1 && Bit(0xAA / 16, 2) == 0 && Bit(0xAA / 16, 1) == 1 && Bit(0xAA / 16, 0) == 0;
  }

  /** Voxel `x < 8` of the first row of an 8×8×8 Binary volume is bit `7 - x`
      of the first byte. */
  lemma FirstRowBit(w: seq<byte>, x: int)
    requires Shaped(Binary, Coord(8, 8, 8), w) && 0 <= x < 8
    ensures VoxelAt(Binary, Coord(8, 8, 8), w, x, 0, 0) == Bit(w[0] as nat, 7 - x)
  {
    var d := Coord(8, 8, 8);
    assert Index(d, x, 0, 0) == x;
    VoxelFits(Binary, d, w, x, 0, 0);
  }
}
