/** The raw voxel container: a dimension fixed once, a pixel format, a byte
    buffer updated in place through the format's accessors, the set of loaded
    z-slices, and the region, reslicing and scanning operations over it. */
module Volumes {
  import opened Wrappers
  import opened Vectors
  import opened Sections
  import opened PixelFormats
  import opened RawVolume
  import opened RegionWrites

  /** The errors the container throws. */
  datatype VolumeError =
    | InvalidVolumeSize
    | DimensionAlreadyFixed
    | MaximumVoxelLimitExceeded
    | SliceAreaNotMultipleOf8
    | DimensionNotSet
    | ZIndexOutOfBounds
    | NotEnoughBufferLength
    | CannotCopyFromSelf
    | VolumeNotFullyLoaded
    | VoxelSizeNotSet

  /** A fill value: one number for every voxel, or a function of the voxel's
      coordinates. */
  datatype FillValue = Constant(v: int) | Generator(fn: (int, int, int) -> int)

  function FillValueAt(value: FillValue, x: int, y: int, z: int): int
  {
    match value
    case Constant(v) => v
    case Generator(fn) => fn(x, y, z)
  }

  /** The three orthogonal reslicing planes. */
  datatype Plane = Axial | Sagittal | Coronal

  /** `'sagittal'` and `'coronal'` select those planes; every other axis name,
      `'axial'` included, selects the axial plane. */
  function AxisPlane(axis: string): (p: Plane)
    ensures p == Sagittal <==> axis == "sagittal"
    ensures p == Coronal <==> axis == "coronal"
  {
    if axis == "sagittal" then Sagittal else if axis == "coronal" then Coronal else Axial
  }

  /** Output width and height of a plane: ry × rz, rx × rz and rx × ry. */
  function PlaneSize(p: Plane, d: Coord): (int, int)
  {
    match p
    case Sagittal => (d.y, d.z)
    case Coronal => (d.x, d.z)
    case Axial => (d.x, d.y)
  }

  /** The voxel shown at column `col`, row `row` of plane `p` through `target`. */
  function PlaneVoxel(p: Plane, target: int, col: int, row: int): Coord
  {
    match p
    case Sagittal => Coord(target, col, row)
    case Coronal => Coord(col, target, row)
    case Axial => Coord(col, row, target)
  }

  /** The plane's fixed coordinate lies in the volume. */
  predicate TargetInVolume(p: Plane, d: Coord, target: int)
  {
    match p
    case Sagittal => 0 <= target < d.x
    case Coronal => 0 <= target < d.y
    case Axial => 0 <= target < d.z
  }

  lemma PlaneVoxelInVolume(p: Plane, d: Coord, target: int, col: int, row: int)
    requires TargetInVolume(p, d, target)
    requires 0 <= col < PlaneSize(p, d).0 && 0 <= row < PlaneSize(p, d).1
    ensures var c := PlaneVoxel(p, target, col, row); InVolume(d, c.x, c.y, c.z)
  {
  }

  /** The step per output pixel along an axis split into `n` pixels; with no
      pixels the step is never taken. */
  function Step(axis: Vec3, n: nat): (r: Vec3)
    ensures n > 0 ==> Scale(n as real, r) == axis
  {
    if n == 0 then Zero else Scale(1.0 / n as real, axis)
  }

  predicate NonZero(v: Vec3)
  {
    v.x != 0.0 && v.y != 0.0 && v.z != 0.0
  }

  function DivideBy(v: Vec3, s: Vec3): Vec3
    requires NonZero(s)
  {
    Vec3(v.x / s.x, v.y / s.y, v.z / s.z)
  }

  /** A millimetre section in index coordinates, for voxels of size `voxel`. */
  function ToIndexSection(mm: Section, voxel: Vec3): (r: Section)
    requires NonZero(voxel)
    ensures r.origin.x * voxel.x == mm.origin.x && r.xAxis.y * voxel.y == mm.xAxis.y && r.yAxis.z * voxel.z == mm.yAxis.z
  {
    Section(DivideBy(mm.origin, voxel), DivideBy(mm.xAxis, voxel), DivideBy(mm.yAxis, voxel))
  }

  datatype MprResult = MprResult(image: seq<int>, outWidth: int, outHeight: int)

  /** Window width and level for scanning. */
  datatype Window = Window(width: real, level: real)

  /** Voxel `u` steps along `eu` and `v` steps along `ev` from `origin`. */
  function ScanPosition(origin: Vec3, eu: Vec3, ev: Vec3, u: int, v: int): Vec3
  {
    Add(Add(origin, Scale(u as real, eu)), Scale(v as real, ev))
  }

  /** The value of a voxel of the source volume, or 0 off its grid. */
  function VoxelOrZero(f: PixelFormat, d: Coord, bytes: seq<byte>, x: int, y: int, z: int): int
  {
    if Shaped(f, d, bytes) && InVolume(d, x, y, z) then VoxelAt(f, d, bytes, x, y, z) else 0
  }

  function MapValue(mapper: Option<int -> int>, v: int): int
  {
    match mapper
    case None => v
    case Some(m) => m(v)
  }

  /** The destination region of a copy: the box moved by `offset`, clamped to the
      destination only. */
  function CopyRegion(dim: Coord, size: Coord, offset: Coord): Box
  {
    var xmin, xmax := Max(0, -offset.x), Min(dim.x - offset.x, size.x);
    var ymin, ymax := Max(0, -offset.y), Min(dim.y - offset.y, size.y);
    var zmin, zmax := Max(0, -offset.z), Min(dim.z - offset.z, size.z);
    Box(Coord(offset.x + xmin, offset.y + ymin, offset.z + zmin),
        Coord(xmax - xmin, ymax - ymin, zmax - zmin))
  }

  function Max(a: int, b: int): int { if a >= b then a else b }
  function Min(a: int, b: int): int { if a <= b then a else b }

  /** Within the destination, the copy region is exactly the moved box. */
  lemma CopyRegionWithin(dim: Coord, size: Coord, offset: Coord, x: int, y: int, z: int)
    requires InVolume(dim, x, y, z)
    ensures InBox(CopyRegion(dim, size, offset), x, y, z) <==> InBox(Box(offset, size), x, y, z)
  {
  }

  /** Every voxel of the copy region lies in the destination. */
  lemma CopyRegionInside(dim: Coord, size: Coord, offset: Coord)
    ensures RegionInVolume(CopyRegion(dim, size, offset), dim)
  {
  }

  /** Voxel `o + p` of `now` holds the stored value of voxel `box.origin + p` of
      the source for every `p` of the box whose destination lies in the volume;
      every other voxel of `now` is as in `prior`. */
  ghost predicate Copied(f: PixelFormat, d: Coord, prior: seq<byte>, now: seq<byte>,
                         sf: PixelFormat, sd: Coord, sbytes: seq<byte>, box: Box, o: Coord)
  {
    Shaped(f, d, prior) && Shaped(f, d, now) && Shaped(sf, sd, sbytes) && BoxWithin(box, sd)
    && forall x, y, z :: InVolume(d, x, y, z) ==>
      VoxelAt(f, d, now, x, y, z)
      == if InBox(Box(o, box.size), x, y, z)
         then Stored(f, Index(d, x, y, z), VoxelAt(sf, sd, sbytes, x - o.x + box.origin.x, y - o.y + box.origin.y, z - o.z + box.origin.z))
         else VoxelAt(f, d, prior, x, y, z)
  }

  lemma CopyOutcome(f: PixelFormat, d: Coord, prior: seq<byte>, now: seq<byte>,
                    sf: PixelFormat, sd: Coord, sbytes: seq<byte>, box: Box, o: Coord, value: (int, int, int) -> int)
    requires Shaped(sf, sd, sbytes) && BoxWithin(box, sd)
    requires forall x, y, z ::
      value(x, y, z) == VoxelOrZero(sf, sd, sbytes, x + (box.origin.x - o.x), y + (box.origin.y - o.y), z + (box.origin.z - o.z))
    requires Filled(f, d, prior, now, value, CopyRegion(d, box.size, o))
    ensures Copied(f, d, prior, now, sf, sd, sbytes, box, o)
  {
    forall x, y, z | InVolume(d, x, y, z)
      ensures VoxelAt(f, d, now, x, y, z)
        == if InBox(Box(o, box.size), x, y, z)
           then Stored(f, Index(d, x, y, z), VoxelAt(sf, sd, sbytes, x - o.x + box.origin.x, y - o.y + box.origin.y, z - o.z + box.origin.z))
           else VoxelAt(f, d, prior, x, y, z)
    {
      CopyVoxel(f, d, prior, now, sf, sd, sbytes, box, o, value(x, y, z), x, y, z);
    }
  }

  /** `CopyOutcome` at one voxel. */
  lemma CopyVoxel(f: PixelFormat, d: Coord, prior: seq<byte>, now: seq<byte>,
                  sf: PixelFormat, sd: Coord, sbytes: seq<byte>, box: Box, o: Coord, v: int, x: int, y: int, z: int)
    requires Shaped(f, d, prior) && Shaped(f, d, now) && Shaped(sf, sd, sbytes) && BoxWithin(box, sd)
    requires InVolume(d, x, y, z)
    requires v == VoxelOrZero(sf, sd, sbytes, x + (box.origin.x - o.x), y + (box.origin.y - o.y), z + (box.origin.z - o.z))
    requires VoxelAt(f, d, now, x, y, z)
      == if InBox(CopyRegion(d, box.size, o), x, y, z) then Stored(f, Index(d, x, y, z), v)
         else VoxelAt(f, d, prior, x, y, z)
    ensures VoxelAt(f, d, now, x, y, z)
      == if InBox(Box(o, box.size), x, y, z)
         then Stored(f, Index(d, x, y, z), VoxelAt(sf, sd, sbytes, x - o.x + box.origin.x, y - o.y + box.origin.y, z - o.z + box.origin.z))
         else VoxelAt(f, d, prior, x, y, z)
  {
    CopyRegionWithin(d, box.size, o, x, y, z);
  }

  /** Every voxel of the box lies in the volume (vacuous for an empty box). */
  predicate RegionInVolume(b: Box, d: Coord)
  {
    b.size.x <= 0 || b.size.y <= 0 || b.size.z <= 0 || BoxWithin(b, d)
  }

  /** The windowed value shown at column `col`, row `row` of an orthogonal
      plane through `target`; 0 off the volume. */
  function PlanePixel(f: PixelFormat, d: Coord, bytes: seq<byte>, p: Plane, target: int,
                      col: int, row: int, width: real, level: real): (r: int)
    requires Shaped(f, d, bytes) && width != 0.0
    ensures 0 <= r <= 255
  {
    var c := PlaneVoxel(p, target, col, row);
    if InVolume(d, c.x, c.y, c.z) then ApplyWindow(width, level, VoxelAt(f, d, bytes, c.x, c.y, c.z) as real) else 0
  }

  /** The value `scanOblique` writes for grid point (u, v): the interpolated
      value at the scan position, rounded or windowed, and 0 outside. */
  function ObliquePixel(f: PixelFormat, d: Coord, bytes: seq<byte>, origin: Vec3, eu: Vec3, ev: Vec3,
                        u: int, v: int, window: Option<Window>): (r: int)
    requires Shaped(f, d, bytes) && Interpolable(d)
    requires window.Some? ==> window.value.width != 0.0
    ensures window.Some? ==> 0 <= r <= 255
  {
    var q := ScanPosition(origin, eu, ev, u, v);
    if !InRealBounds(d, q.x, q.y, q.z) then 0
    else
      var value := Interpolate(f, d, bytes, q.x, q.y, q.z);
      match window
      case None => Round(value)
      case Some(w) => ApplyWindow(w.width, w.level, value)
  }

  /** One more step along `eu` is the next column; one more along `ev` the next row. */
  lemma ScanPositionStep(origin: Vec3, eu: Vec3, ev: Vec3, u: int, v: int)
    ensures Add(ScanPosition(origin, eu, ev, u, v), eu) == ScanPosition(origin, eu, ev, u + 1, v)
    ensures Add(ScanPosition(origin, eu, ev, 0, v), ev) == ScanPosition(origin, eu, ev, 0, v + 1)
  {
    ScaleStep(u as real, eu);
    ScaleStep(v as real, ev);
  }

  lemma ScaleStep(k: real, a: Vec3)
    ensures Add(Scale(k, a), a) == Scale(k + 1.0, a)
  {
    assert (k + 1.0) * a.x == k * a.x + a.x;
    assert (k + 1.0) * a.y == k * a.y + a.y;
    assert (k + 1.0) * a.z == k * a.z + a.z;
  }

  /** Entry `k` of a row-major `w`-wide image is column `k % w` of row `k / w`. */
  lemma RowEntries(row: int, w: int, k: int)
    requires 0 <= row && 0 < w && row * w <= k < row * w + w
    ensures k % w == k - row * w && k / w == row
  {
    RowMajor(row, k - row * w, w);
  }

  /** The first `n` entries of `img` are the plane image's, row-major with rows `w` wide. */
  ghost predicate PlaneRendered(img: seq<int>, n: int, f: PixelFormat, d: Coord, bytes: seq<byte>, p: Plane, target: int,
                                width: real, level: real, w: int)
  {
    Shaped(f, d, bytes) && width != 0.0 && 0 < w && 0 <= n <= |img|
    && forall k :: 0 <= k < n ==> img[k] == PlanePixel(f, d, bytes, p, target, k % w, k / w, width, level)
  }

  /** The first `row` rows of the plane image are in place, `offset` entries. */
  ghost predicate RowsRendered(img: seq<int>, row: int, offset: int, f: PixelFormat, d: Coord, bytes: seq<byte>,
                               p: Plane, target: int, width: real, level: real, w: int)
  {
    offset == row * w && PlaneRendered(img, offset, f, d, bytes, p, target, width, level, w)
  }

  /** Appending row `row` to the first `row` rows of a `w`-wide plane image. */
  lemma RowAppended(f: PixelFormat, d: Coord, bytes: seq<byte>, p: Plane, target: int, width: real, level: real,
                    w: int, row: int, before: seq<int>, after: seq<int>)
    requires 0 <= row && PlaneRendered(before, row * w, f, d, bytes, p, target, width, level, w)
    requires |before| == |after| && row * w + w <= |after| && after[..row * w] == before[..row * w]
    requires forall k :: row * w <= k < row * w + w ==> after[k] == PlanePixel(f, d, bytes, p, target, k - row * w, row, width, level)
    ensures PlaneRendered(after, row * w + w, f, d, bytes, p, target, width, level, w)
  {
    forall k | 0 <= k < row * w + w
      ensures after[k] == PlanePixel(f, d, bytes, p, target, k % w, k / w, width, level)
    {
      if k < row * w {
        assert after[k] == after[..row * w][k];
      } else {
        RowEntries(row, w, k);
      }
    }
  }

  /** The first `n` entries of `img` are the scanned image's, row-major with rows `w` wide. */
  ghost predicate ObliqueRendered(img: seq<int>, n: int, f: PixelFormat, d: Coord, bytes: seq<byte>,
                                  origin: Vec3, eu: Vec3, ev: Vec3, window: Option<Window>, w: int)
  {
    Shaped(f, d, bytes) && Interpolable(d) && (window.Some? ==> window.value.width != 0.0) && 0 <= n <= |img|
    && forall k :: 0 <= k < n && w != 0 ==> img[k] == ObliquePixel(f, d, bytes, origin, eu, ev, k % w, k / w, window)
  }

  lemma ObliqueRowAppended(f: PixelFormat, d: Coord, bytes: seq<byte>, origin: Vec3, eu: Vec3, ev: Vec3,
                           window: Option<Window>, w: int, row: int, before: seq<int>, after: seq<int>)
    requires 0 <= row && 0 <= w && ObliqueRendered(before, row * w, f, d, bytes, origin, eu, ev, window, w)
    requires |before| == |after| && row * w + w <= |after| && after[..row * w] == before[..row * w]
    requires forall k :: row * w <= k < row * w + w ==>
      after[k] == ObliquePixel(f, d, bytes, origin, eu, ev, k - row * w, row, window)
    ensures ObliqueRendered(after, row * w + w, f, d, bytes, origin, eu, ev, window, w)
  {
    forall k | 0 <= k < row * w + w && w != 0
      ensures after[k] == ObliquePixel(f, d, bytes, origin, eu, ev, k % w, k / w, window)
    {
      if k < row * w {
        assert after[k] == after[..row * w][k];
      } else {
        RowEntries(row, w, k);
      }
    }
  }

  lemma MulSucc(row: int, w: int)
    ensures (row + 1) * w == row * w + w
  {
  }

  lemma RowsFit(row: int, w: int, h: int)
    requires 0 <= row < h && 0 <= w
    ensures row * w + w <= w * h
  {
    MulGap(w, row, h);
  }

  /** Every state the container reaches before and after `setDimension`. */
  class RawData {
    var size: Option<Coord>
    var pixelFormat: PixelFormat
    var voxelSize: Option<Vec3>
    var data: array<byte>
    var loadedSlices: set<int>

    ghost predicate Valid()
      reads this, data
    {
      match size
      case None => pixelFormat == Unknown && loadedSlices == {}
      case Some(d) =>
        Shaped(pixelFormat, d, data[..]) && forall z :: z in loadedSlices ==> 0 <= z < d.z
    }

    /** The voxel at (x, y, z) of the current buffer. */
    function Voxel(x: int, y: int, z: int): int
      reads this, data
      requires Valid() && size.Some? && InVolume(size.value, x, y, z)
    {
      VoxelAt(pixelFormat, size.value, data[..], x, y, z)
    }

    constructor()
      ensures Valid() && size == None && voxelSize == None
    {
      size := None;
      pixelFormat := Unknown;
      voxelSize := None;
      data := new byte[0];
      loadedSlices := {};
    }

    /** `setDimension(x, y, z, type)`: validates in the source's order, then fixes
        the dimension and allocates a zeroed buffer. */
    method SetDimension(x: int, y: int, z: int, f: PixelFormat) returns (r: Outcome<VolumeError>)
      requires Valid() && f != Unknown
      modifies this
      ensures Valid()
      ensures x <= 0 || y <= 0 || z <= 0 ==> r == Fail(InvalidVolumeSize)
      ensures x > 0 && y > 0 && z > 0 && old(size).Some? ==> r == Fail(DimensionAlreadyFixed)
      ensures x > 0 && y > 0 && z > 0 && old(size).None? && x * y * z > MaxVoxels ==> r == Fail(MaximumVoxelLimitExceeded)
      ensures (x > 0 && y > 0 && z > 0 && old(size).None? && x * y * z <= MaxVoxels
               && f == Binary && (x * y) % 8 != 0) ==> r == Fail(SliceAreaNotMultipleOf8)
      ensures r.Pass? <==> old(size).None? && ValidDimension(Coord(x, y, z), f)
      ensures r.Fail? ==> size == old(size) && pixelFormat == old(pixelFormat) && data == old(data)
      ensures r.Pass? ==> size == Some(Coord(x, y, z)) && pixelFormat == f && fresh(data)
                          && data.Length == ByteLength(f, x * y * z)
                          && forall i :: 0 <= i < data.Length ==> data[i] == 0
      ensures voxelSize == old(voxelSize) && loadedSlices == old(loadedSlices)
    {
      if x <= 0 || y <= 0 || z <= 0 {
        return Fail(InvalidVolumeSize);
      }
      if size.Some? {
        return Fail(DimensionAlreadyFixed);
      }
      if x * y * z > MaxVoxels {
        return Fail(MaximumVoxelLimitExceeded);
      }
      if f == Binary && (x * y) % 8 != 0 {
        return Fail(SliceAreaNotMultipleOf8);
      }
      size := Some(Coord(x, y, z));
      pixelFormat := f;
      data := new byte[ByteLength(f, x * y * z)](_ => 0);
      r := Pass;
    }

    /** The `write` accessor of each format: the typed-array store, or the
        single-bit update of the packed byte. */
    static method Write(buf: array<byte>, f: PixelFormat, pos: int, value: int)
      requires f != Unknown && 0 <= pos && Fits(f, buf.Length, pos)
      modifies buf
      ensures buf[..] == WriteVoxel(f, old(buf[..]), pos, value)
    {
      match f
      case UInt8 => buf[pos] := LowByte(value);
      case Int8 => buf[pos] := LowByte(value);
      case UInt16 =>
        buf[2 * pos] := LowByte(value);
        buf[2 * pos + 1] := LowByte(value / 256);
      case Int16 =>
        buf[2 * pos] := LowByte(value);
        buf[2 * pos + 1] := LowByte(value / 256);
      case Binary =>
        var cur := buf[pos / 8];
        buf[pos / 8] := SetBit(cur, value, BitIndex(pos));
    }

    /** `getPixelAt(x, y, z)`. */
    method GetPixelAt(x: int, y: int, z: int) returns (v: int)
      requires Valid() && size.Some? && InVolume(size.value, x, y, z)
      ensures v == Voxel(x, y, z)
      ensures MinLevel(pixelFormat) <= v <= MaxLevel(pixelFormat)
    {
      var d := size.value;
      VoxelFits(pixelFormat, d, data[..], x, y, z);
      VoxelInLevels(pixelFormat, d, data[..], x, y, z);
      v := ReadVoxel(pixelFormat, data[..], x + (y + z * d.y) * d.x);
    }

    /** `writePixelAt(value, x, y, z)`: voxel (x, y, z) takes the stored form of
        `value` and no other voxel changes. */
    method WritePixelAt(value: int, x: int, y: int, z: int)
      requires Valid() && size.Some? && InVolume(size.value, x, y, z)
      modifies data
      ensures Valid()
      ensures data[..] == WriteAt(pixelFormat, size.value, old(data[..]), x, y, z, value)
      ensures forall a, b, c :: InVolume(size.value, a, b, c) ==>
        Voxel(a, b, c) == if a == x && b == y && c == z then Stored(pixelFormat, Index(size.value, x, y, z), value)
                          else VoxelAt(pixelFormat, size.value, old(data[..]), a, b, c)
    {
      var d := size.value;
      VoxelFits(pixelFormat, d, data[..], x, y, z);
      WriteAtEffect(pixelFormat, d, data[..], x, y, z, value);
      Write(data, pixelFormat, x + (y + z * d.y) * d.x, value);
    }

    /** `markSliceAsLoaded(z)`. */
    method MarkSliceAsLoaded(z: int) returns (r: Outcome<VolumeError>)
      requires Valid()
      modifies this
      ensures size == old(size) && pixelFormat == old(pixelFormat) && data == old(data) && voxelSize == old(voxelSize)
      ensures Valid()
      ensures r == if size.None? then Fail(DimensionNotSet)
                   else if 0 <= z < size.value.z then Pass else Fail(ZIndexOutOfBounds)
      ensures loadedSlices == if r.Pass? then old(loadedSlices) + {z} else old(loadedSlices)
    {
      if size.None? {
        return Fail(DimensionNotSet);
      }
      if z < 0 || z >= size.value.z {
        return Fail(ZIndexOutOfBounds);
      }
      loadedSlices := loadedSlices + {z};
      r := Pass;
    }

    /** `insertSingleImage(z, imageData)`: overwrites slice `z` with the first
        `rx * ry * bpp` bytes of the image and marks it loaded. */
    method InsertSingleImage(z: int, image: seq<byte>) returns (r: Outcome<VolumeError>)
      requires Valid()
      modifies this, data
      ensures Valid()
      ensures old(size).None? ==> r == Fail(DimensionNotSet)
      ensures old(size).Some? && !(0 <= z < old(size).value.z) ==> r == Fail(ZIndexOutOfBounds)
      ensures old(size).Some? && 0 <= z < old(size).value.z && |image| < SliceLength(old(pixelFormat), old(size).value)
              ==> r == Fail(NotEnoughBufferLength)
      ensures size == old(size) && pixelFormat == old(pixelFormat) && data == old(data) && voxelSize == old(voxelSize)
      ensures r.Fail? ==> data[..] == old(data[..]) && loadedSlices == old(loadedSlices)
      ensures r.Pass? ==> size.Some? && 0 <= z < size.value.z && |image| >= SliceLength(pixelFormat, size.value)
                          && data[..] == WithSlice(pixelFormat, size.value, old(data[..]), z, image)
                          && loadedSlices == old(loadedSlices) + {z}
    {
      if size.None? {
        return Fail(DimensionNotSet);
      }
      var d := size.value;
      if z < 0 || z >= d.z {
        return Fail(ZIndexOutOfBounds);
      }
      var byteLength := SliceLength(pixelFormat, d);
      if byteLength > |image| {
        return Fail(NotEnoughBufferLength);
      }
      SliceBounds(pixelFormat, d, data[..], z);
      var offset := byteLength * z;
      ghost var before := data[..];
      forall i | 0 <= i < byteLength {
        data[offset + i] := image[i];
      }
      assert data[..] == WithSlice(pixelFormat, d, before, z, image);
      loadedSlices := loadedSlices + {z};
      r := Pass;
    }

    /** `getSingleImage(z)`: a copy of the bytes of slice `z`. */
    method GetSingleImage(z: int) returns (r: Result<seq<byte>, VolumeError>)
      requires Valid()
      ensures size.None? ==> r == Err(DimensionNotSet)
      ensures size.Some? && !(0 <= z < size.value.z) ==> r == Err(ZIndexOutOfBounds)
      ensures size.Some? && 0 <= z < size.value.z ==> r == Ok(SliceBytes(pixelFormat, size.value, data[..], z))
    {
      if size.None? {
        return Err(DimensionNotSet);
      }
      var d := size.value;
      if z < 0 || z >= d.z {
        return Err(ZIndexOutOfBounds);
      }
      var byteLength := SliceLength(pixelFormat, d);
      SliceBounds(pixelFormat, d, data[..], z);
      var offset := byteLength * z;
      r := Ok(data[offset .. offset + byteLength]);
    }

    /** `getDimension()`. */
    method GetDimension() returns (r: Result<Coord, VolumeError>)
      requires Valid()
      ensures size.None? <==> r == Err(DimensionNotSet)
      ensures size.Some? ==> r == Ok(size.value) && r.value.x > 0 && r.value.y > 0 && r.value.z > 0
    {
      if size.None? {
        return Err(DimensionNotSet);
      }
      r := Ok(size.value);
    }

    /** `dataSize`: voxels times bytes per voxel, which is the buffer's length. */
    method DataSize() returns (r: Result<int, VolumeError>)
      requires Valid()
      ensures size.None? ==> r == Err(DimensionNotSet)
      ensures size.Some? ==> r == Ok(data.Length)
    {
      if size.None? {
        return Err(DimensionNotSet);
      }
      var d := size.value;
      r := Ok(d.x * d.y * d.z * BitsPerVoxel(pixelFormat) / 8);
    }

    /** `setVoxelDimension(width, height, depth)`. */
    method SetVoxelDimension(width: real, height: real, depth: real)
      requires Valid()
      modifies this
      ensures Valid()
      ensures voxelSize == Some(Vec3(width, height, depth))
      ensures size == old(size) && pixelFormat == old(pixelFormat) && data == old(data) && loadedSlices == old(loadedSlices)
    {
      voxelSize := Some(Vec3(width, height, depth));
    }

    /** `getMmDimension()`: the voxel counts scaled by the voxel size. */
    method GetMmDimension() returns (r: Result<Vec3, VolumeError>)
      requires Valid()
      ensures size.None? ==> r == Err(DimensionNotSet)
      ensures size.Some? && voxelSize.None? ==> r == Err(VoxelSizeNotSet)
      ensures size.Some? && voxelSize.Some? ==>
        r == Ok(Vec3((size.value.x as real) * voxelSize.value.x, (size.value.y as real) * voxelSize.value.y,
                     (size.value.z as real) * voxelSize.value.z))
    {
      if size.None? {
        return Err(DimensionNotSet);
      }
      if voxelSize.None? {
        return Err(VoxelSizeNotSet);
      }
      var d, v := size.value, voxelSize.value;
      r := Ok(Vec3((d.x as real) * v.x, (d.y as real) * v.y, (d.z as real) * v.z));
      assert r.value == Vec3((size.value.x as real) * voxelSize.value.x, (size.value.y as real) * voxelSize.value.y,
                     (size.value.z as real) * voxelSize.value.z);
    }

    /** The z/y/x loops shared by fill, copy and convert: every voxel of `region`
        is written with `value` at that voxel through the `write` accessor. */
    static method PaintRegion(buf: array<byte>, f: PixelFormat, d: Coord,
                              value: (int, int, int) -> int, region: Box)
      requires Shaped(f, d, buf[..]) && RegionInVolume(region, d)
      modifies buf
      ensures Filled(f, d, old(buf[..]), buf[..], value, region)
    {
      ghost var prior := buf[..];
      var x0, y0, z0 := region.origin.x, region.origin.y, region.origin.z;
      var x1, y1, z1 := x0 + region.size.x, y0 + region.size.y, z0 + region.size.z;
      PaintStart(f, d, prior, value, region);
      var z := z0;
      while z < z1
        invariant z0 <= z && (z <= z1 || z == z0)
        invariant Painted(f, d, prior, buf[..], value, region, x0, y0, z)
      {
        var y := y0;
        while y < y1
          invariant y0 <= y && (y <= y1 || y == y0)
          invariant Painted(f, d, prior, buf[..], value, region, x0, y, z)
        {
          var x := x0;
          while x < x1
            invariant x0 <= x && (x <= x1 || x == x0)
            invariant Painted(f, d, prior, buf[..], value, region, x, y, z)
          {
            assert InBox(region, x, y, z);
            VoxelFits(f, d, buf[..], x, y, z);
            PaintStep(f, d, prior, buf[..], value, region, x, y, z);
            Write(buf, f, x + (y + z * d.y) * d.x, value(x, y, z));
            x := x + 1;
          }
          PaintNextRow(f, d, prior, buf[..], value, region, x, y, z);
          y := y + 1;
        }
        PaintNextPlane(f, d, prior, buf[..], value, region, y, z);
        z := z + 1;
      }
      PaintDone(f, d, prior, buf[..], value, region, z);
    }

    /** `fillCuboid(value, box)`: exactly the voxels of the box take the value. */
    method FillCuboid(value: FillValue, box: Box)
      requires Valid() && size.Some? && BoxWithin(box, size.value)
      modifies data
      ensures Valid()
      ensures Filled(pixelFormat, size.value, old(data[..]), data[..], (x, y, z) => FillValueAt(value, x, y, z), box)
    {
      PaintRegion(data, pixelFormat, size.value, (x, y, z) => FillValueAt(value, x, y, z), box);
    }

    /** `fillAll(value)`: every voxel takes the value. */
    method FillAll(value: FillValue) returns (r: Outcome<VolumeError>)
      requires Valid()
      modifies data
      ensures Valid()
      ensures r == if size.None? then Fail(DimensionNotSet) else Pass
      ensures r.Fail? ==> data[..] == old(data[..])
      ensures r.Pass? ==> size.Some? && forall x, y, z :: InVolume(size.value, x, y, z) ==>
        Voxel(x, y, z) == Stored(pixelFormat, Index(size.value, x, y, z), FillValueAt(value, x, y, z))
    {
      if size.None? {
        return Fail(DimensionNotSet);
      }
      r := Pass;
      FillCuboid(value, Box(Coord(0, 0, 0), size.value));
    }

    /** `copy(src, srcBox, offset)`: voxel `offset + p` of this volume takes the
        value of voxel `srcBox.origin + p` of `src`, for every `p` of the box whose
        destination lies in this volume. */
    method Copy(src: RawData, srcBox: Option<Box>, offset: Option<Coord>) returns (r: Outcome<VolumeError>)
      requires Valid() && src.Valid()
      requires src != this ==> src.data != data
      requires srcBox.Some? ==> src.size.Some? && BoxWithin(srcBox.value, src.size.value)
      modifies data
      ensures Valid()
      ensures src == this ==> r == Fail(CannotCopyFromSelf)
      ensures src != this && srcBox.None? && src.size.None? ==> r == Fail(DimensionNotSet)
      ensures src != this && (srcBox.Some? || src.size.Some?) && size.None? ==> r == Fail(DimensionNotSet)
      ensures r.Fail? ==> data[..] == old(data[..])
      ensures r.Pass? ==> src != this && size.Some? && src.size.Some?
      ensures r.Pass? ==>
        Copied(pixelFormat, size.value, old(data[..]), data[..], src.pixelFormat, src.size.value, src.data[..],
               if srcBox.Some? then srcBox.value else Box(Coord(0, 0, 0), src.size.value),
               if offset.Some? then offset.value else Coord(0, 0, 0))
    {
      if src == this {
        return Fail(CannotCopyFromSelf);
      }
      var box: Box;
      if srcBox.Some? {
        box := srcBox.value;
      } else {
        var sd := src.GetDimension();
        if sd.Err? {
          return Fail(sd.error);
        }
        box := Box(Coord(0, 0, 0), sd.value);
      }
      var o := if offset.Some? then offset.value else Coord(0, 0, 0);
      var dim := GetDimension();
      if dim.Err? {
        return Fail(dim.error);
      }
      var d := dim.value;
      var sf, sdim, sbytes := src.pixelFormat, src.size.value, src.data[..];
      var value := (x, y, z) => VoxelOrZero(sf, sdim, sbytes, x + (box.origin.x - o.x), y + (box.origin.y - o.y), z + (box.origin.z - o.z));
      CopyRegionInside(d, box.size, o);
      ghost var prior := data[..];
      PaintRegion(data, pixelFormat, d, value, CopyRegion(d, box.size, o));
      CopyOutcome(pixelFormat, d, prior, data[..], sf, sdim, sbytes, box, o, value);
      r := Pass;
    }

    /** `convert(targetFormat, mapper)`: a buffer of the new format in which every
        voxel holds the (mapped) old value, replacing the old buffer. */
    method Convert(target: PixelFormat, mapper: Option<int -> int>) returns (r: Outcome<VolumeError>)
      requires Valid() && target != Unknown
      modifies this
      ensures size == old(size) && loadedSlices == old(loadedSlices) && voxelSize == old(voxelSize)
      ensures Valid()
      ensures size.None? ==> r == Fail(DimensionNotSet)
      ensures size.Some? ==> (r.Fail? <==> target == Binary && (size.value.x * size.value.y) % 8 != 0)
      ensures size.Some? && r.Fail? ==> r == Fail(SliceAreaNotMultipleOf8)
      ensures r.Fail? ==> pixelFormat == old(pixelFormat) && data == old(data)
      ensures r.Pass? ==> size.Some? && pixelFormat == target && fresh(data)
      ensures r.Pass? ==> forall x, y, z :: InVolume(size.value, x, y, z) ==>
        Voxel(x, y, z) == Stored(target, Index(size.value, x, y, z),
                                 MapValue(mapper, VoxelAt(old(pixelFormat), size.value, old(data[..]), x, y, z)))
    {
      if size.None? {
        return Fail(DimensionNotSet);
      }
      var d := size.value;
      var newRaw := new RawData();
      r := newRaw.SetDimension(d.x, d.y, d.z, target);
      if r.Fail? {
        return;
      }
      var f, bytes := pixelFormat, data[..];
      var value := (x, y, z) => MapValue(mapper, VoxelOrZero(f, d, bytes, x, y, z));
      PaintRegion(newRaw.data, target, d, value, Box(Coord(0, 0, 0), d));
      pixelFormat := target;
      data := newRaw.data;
    }
    /** One row of an orthogonal reslice, written to `base .. base + w`. */
    method RenderRow(p: Plane, target: int, width: real, level: real, row: int, w: int, base: int, buffer: array<int>)
      requires Valid() && size.Some? && width != 0.0 && TargetInVolume(p, size.value, target)
      requires PlaneSize(p, size.value).0 == w && 0 <= row < PlaneSize(p, size.value).1
      requires 0 <= base && base + w <= buffer.Length
      modifies buffer
      ensures forall k :: base <= k < base + w ==>
        buffer[k] == PlanePixel(pixelFormat, size.value, data[..], p, target, k - base, row, width, level)
      ensures buffer[..base] == old(buffer[..base])
    {
      var col := 0;
      while col < w
        invariant 0 <= col <= w
        invariant forall k :: base <= k < base + col ==>
          buffer[k] == PlanePixel(pixelFormat, size.value, data[..], p, target, k - base, row, width, level)
        invariant buffer[..base] == old(buffer[..base])
      {
        PlaneVoxelInVolume(p, size.value, target, col, row);
        var c := PlaneVoxel(p, target, col, row);
        var v := GetPixelAt(c.x, c.y, c.z);
        buffer[base + col] := ApplyWindow(width, level, v as real);
        col := col + 1;
      }
    }

    /** The rows of an orthogonal reslice, written in order into `buffer`. */
    method RenderRows(p: Plane, target: int, width: real, level: real, w: nat, h: nat, buffer: array<int>)
      requires Valid() && size.Some? && width != 0.0 && TargetInVolume(p, size.value, target)
      requires PlaneSize(p, size.value).0 == w && PlaneSize(p, size.value).1 == h && w * h <= buffer.Length
      modifies buffer
      ensures PlaneRendered(buffer[..], w * h, pixelFormat, size.value, data[..], p, target, width, level, w)
    {
      var offset := 0;
      var row := 0;
      while row < h
        invariant 0 <= row <= h
        invariant RowsRendered(buffer[..], row, offset, pixelFormat, size.value, data[..], p, target, width, level, w)
      {
        RowsFit(row, w, h);
        row, offset := AppendRow(p, target, width, level, row, w, offset, buffer);
      }
      assert offset == w * h;
    }

    /** Rendering row `row` after the rows before it extends the rendered prefix
        by one row; the result is the next row and its offset. */
    method AppendRow(p: Plane, target: int, width: real, level: real, row: nat, w: nat, offset: nat,
                     buffer: array<int>) returns (nextRow: nat, next: nat)
      requires Valid() && size.Some? && width != 0.0 && TargetInVolume(p, size.value, target)
      requires PlaneSize(p, size.value).0 == w && row < PlaneSize(p, size.value).1
      requires row * w + w <= buffer.Length
      requires RowsRendered(buffer[..], row, offset, pixelFormat, size.value, data[..], p, target, width, level, w)
      modifies buffer
      ensures nextRow == row + 1
      ensures RowsRendered(buffer[..], nextRow, next, pixelFormat, size.value, data[..], p, target, width, level, w)
    {
      ghost var before := buffer[..];
      RenderRow(p, target, width, level, row, w, offset, buffer);
      RowAppended(pixelFormat, size.value, data[..], p, target, width, level, w, row, before, buffer[..]);
      nextRow, next := row + 1, offset + w;
      MulSucc(row, w);
    }

    /** One orthogonal reslice: rows outside, columns inside, written in order. */
    method RenderPlane(p: Plane, target: int, width: real, level: real) returns (image: seq<int>)
      requires Valid() && size.Some? && width != 0.0 && TargetInVolume(p, size.value, target)
      ensures var w := PlaneSize(p, size.value).0;
        |image| == w * PlaneSize(p, size.value).1
        && forall k :: 0 <= k < |image| ==>
             image[k] == PlanePixel(pixelFormat, size.value, data[..], p, target, k % w, k / w, width, level)
    {
      var w: nat, h: nat := PlaneSize(p, size.value).0, PlaneSize(p, size.value).1;
      var buffer := new int[w * h];
      RenderRows(p, target, width, level, w, h, buffer);
      image := buffer[..];
    }

    /** `orthogonalMpr(axis, target, windowWidth, windowLevel)`. */
    method OrthogonalMpr(axis: string, target: int, width: real, level: real) returns (r: Result<MprResult, VolumeError>)
      requires Valid() && width != 0.0
      requires size.Some? ==> TargetInVolume(AxisPlane(axis), size.value, target)
      ensures size.None? <==> r == Err(DimensionNotSet)
      ensures size.Some? && (AxisPlane(axis) == Sagittal || AxisPlane(axis) == Coronal) && |loadedSlices| != size.value.z
              <==> r == Err(VolumeNotFullyLoaded)
      ensures r.Ok? ==> size.Some?
      ensures r.Ok? && size.Some? ==>
        var p := AxisPlane(axis);
        var (w, h) := PlaneSize(p, size.value);
        r.value.outWidth == w && r.value.outHeight == h && |r.value.image| == w * h
        && forall k :: 0 <= k < w * h ==>
             r.value.image[k] == PlanePixel(pixelFormat, size.value, data[..], p, target, k % w, k / w, width, level)
    {
      if size.None? {
        return Err(DimensionNotSet);
      }
      var p := AxisPlane(axis);
      if (p == Sagittal || p == Coronal) && |loadedSlices| != size.value.z {
        return Err(VolumeNotFullyLoaded);
      }
      var image := RenderPlane(p, target, width, level);
      var (w, h) := PlaneSize(p, size.value);
      r := Ok(MprResult(image, w, h));
    }

    /** One row `j` of `scanOblique`, written to `base .. base + outWidth`,
        starting at `start` and moving by `eu` per column. */
    method ScanRow(origin: Vec3, eu: Vec3, ev: Vec3, j: int, start: Vec3, outWidth: nat, base: nat,
                   image: array<int>, window: Option<Window>)
      requires Valid() && size.Some? && Interpolable(size.value)
      requires window.Some? ==> window.value.width != 0.0
      requires start == ScanPosition(origin, eu, ev, 0, j)
      requires base + outWidth <= image.Length
      modifies image
      ensures forall k :: base <= k < base + outWidth ==>
        image[k] == ObliquePixel(pixelFormat, size.value, data[..], origin, eu, ev, k - base, j, window)
      ensures image[..base] == old(image[..base]) && image[base + outWidth..] == old(image[base + outWidth..])
    {
      var d, bytes := size.value, data[..];
      var pos := start;
      var i := 0;
      while i < outWidth
        invariant 0 <= i <= outWidth
        invariant pos == ScanPosition(origin, eu, ev, i, j)
        invariant forall k :: base <= k < base + i ==>
          image[k] == ObliquePixel(pixelFormat, d, bytes, origin, eu, ev, k - base, j, window)
        invariant image[..base] == old(image[..base]) && image[base + i..] == old(image[base + i..])
      {
        var value: real;
        if InRealBounds(d, pos.x, pos.y, pos.z) {
          value := Interpolate(pixelFormat, d, bytes, pos.x, pos.y, pos.z);
          if window.Some? {
            var a := ApplyWindow(window.value.width, window.value.level, value);
            RoundOfInteger(a);
            value := a as real;
          }
        } else {
          value := 0.0;
          RoundOfInteger(0);
        }
        image[base + i] := Round(value);
        ScanPositionStep(origin, eu, ev, i, j);
        pos := Add(pos, eu);
        i := i + 1;
      }
    }

    /** `scanOblique(origin, eu, ev, outSize, image, windowWidth, windowLevel)`:
        writes `outWidth * outHeight` entries row by row, the position moving by
        `eu` per column and by `ev` per row, 0 where it leaves the volume. */
    method ScanOblique(origin: Vec3, eu: Vec3, ev: Vec3, outWidth: nat, outHeight: nat,
                       image: array<int>, window: Option<Window>) returns (r: Outcome<VolumeError>)
      requires Valid() && (size.Some? ==> Interpolable(size.value))
      requires window.Some? ==> window.value.width != 0.0
      requires outWidth * outHeight <= image.Length
      modifies image
      ensures r == if size.None? then Fail(DimensionNotSet) else Pass
      ensures r.Fail? ==> image[..] == old(image[..])
      ensures r.Pass? ==> size.Some? && forall k :: 0 <= k < outWidth * outHeight ==>
        image[k] == ObliquePixel(pixelFormat, size.value, data[..], origin, eu, ev, k % outWidth, k / outWidth, window)
      ensures image[outWidth * outHeight..] == old(image[outWidth * outHeight..])
    {
      if size.None? {
        return Fail(DimensionNotSet);
      }
      ghost var f, d, bytes := pixelFormat, size.value, data[..];
      var rowStart := origin;
      var offset := 0;
      var j := 0;
      while j < outHeight
        invariant 0 <= j <= outHeight && offset == j * outWidth && offset <= image.Length
        invariant data[..] == bytes
        invariant rowStart == ScanPosition(origin, eu, ev, 0, j)
        invariant ObliqueRendered(image[..], offset, f, d, bytes, origin, eu, ev, window, outWidth)
        invariant image[offset..] == old(image[offset..])
      {
        RowsFit(j, outWidth, outHeight);
        ScanNextRow(origin, eu, ev, j, rowStart, outWidth, image, window);
        assert offset + outWidth == (j + 1) * outWidth;
        ScanPositionStep(origin, eu, ev, 0, j);
        rowStart := Add(rowStart, ev);
        offset := offset + outWidth;
        j := j + 1;
      }
      assert offset == outWidth * outHeight;
      r := Pass;
    }

    /** Scanning row `j` after the rows before it extends the scanned prefix by one row. */
    method ScanNextRow(origin: Vec3, eu: Vec3, ev: Vec3, j: nat, start: Vec3, outWidth: nat,
                       image: array<int>, window: Option<Window>)
      requires Valid() && size.Some? && Interpolable(size.value)
      requires window.Some? ==> window.value.width != 0.0
      requires start == ScanPosition(origin, eu, ev, 0, j)
      requires j * outWidth + outWidth <= image.Length
      requires ObliqueRendered(image[..], j * outWidth, pixelFormat, size.value, data[..], origin, eu, ev, window, outWidth)
      modifies image
      ensures ObliqueRendered(image[..], j * outWidth + outWidth, pixelFormat, size.value, data[..], origin, eu, ev, window, outWidth)
      ensures image[j * outWidth + outWidth..] == old(image[j * outWidth + outWidth..])
    {
      ghost var before := image[..];
      ScanRow(origin, eu, ev, j, start, outWidth, j * outWidth, image, window);
      ObliqueRowAppended(pixelFormat, size.value, data[..], origin, eu, ev, window, outWidth, j, before, image[..]);
    }

    /** `scanObliqueSection(section, outSize, image, ...)`: scans with one output
        pixel per `xAxis / outWidth` and per `yAxis / outHeight`. */
    method ScanObliqueSection(section: Section, outWidth: nat, outHeight: nat,
                              image: array<int>, window: Option<Window>) returns (r: Outcome<VolumeError>)
      requires Valid() && (size.Some? ==> Interpolable(size.value))
      requires window.Some? ==> window.value.width != 0.0
      requires outWidth * outHeight <= image.Length
      modifies image
      ensures r == if size.None? then Fail(DimensionNotSet) else Pass
      ensures r.Fail? ==> image[..] == old(image[..])
      ensures r.Pass? ==> size.Some? && forall k :: 0 <= k < outWidth * outHeight ==>
        image[k] == ObliquePixel(pixelFormat, size.value, data[..], section.origin,
                                 Step(section.xAxis, outWidth), Step(section.yAxis, outHeight),
                                 k % outWidth, k / outWidth, window)
      ensures image[outWidth * outHeight..] == old(image[outWidth * outHeight..])
    {
      var eu := Step(section.xAxis, outWidth);
      var ev := Step(section.yAxis, outHeight);
      r := ScanOblique(section.origin, eu, ev, outWidth, outHeight, image, window);
    }

    /** `scanObliqueSectionInMillimeter(mmSection, ...)`: the section is converted
        to index coordinates by dividing each component by the voxel size. */
    method ScanObliqueSectionInMillimeter(mmSection: Section, outWidth: nat, outHeight: nat,
                                          image: array<int>, window: Option<Window>) returns (r: Outcome<VolumeError>)
      requires Valid() && (size.Some? ==> Interpolable(size.value))
      requires voxelSize.Some? ==> NonZero(voxelSize.value)
      requires window.Some? ==> window.value.width != 0.0
      requires outWidth * outHeight <= image.Length
      modifies image
      ensures r == if voxelSize.None? then Fail(VoxelSizeNotSet) else if size.None? then Fail(DimensionNotSet) else Pass
      ensures r.Fail? ==> image[..] == old(image[..])
      ensures r.Pass? ==> size.Some? && voxelSize.Some?
      ensures r.Pass? && size.Some? && voxelSize.Some? ==>
        var s := ToIndexSection(mmSection, voxelSize.value);
        forall k :: 0 <= k < outWidth * outHeight ==>
          image[k] == ObliquePixel(pixelFormat, size.value, data[..], s.origin,
                                   Step(s.xAxis, outWidth), Step(s.yAxis, outHeight),
                                   k % outWidth, k / outWidth, window)
      ensures image[outWidth * outHeight..] == old(image[outWidth * outHeight..])
    {
      if voxelSize.None? {
        return Fail(VoxelSizeNotSet);
      }
      var indexSection := ToIndexSection(mmSection, voxelSize.value);
      r := ScanObliqueSection(indexSection, outWidth, outHeight, image, window);
    }
  }
}
