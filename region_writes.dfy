/** What the nested z/y/x loops of fill, copy and convert leave behind: every
    voxel of a box that the scan has passed holds the stored form of its new
    value, and every other voxel is as it was. */
module RegionWrites {
  import opened PixelFormats
  import opened RawVolume

  /** Voxel (x, y, z) comes before the scan cursor (cx, cy, cz) in z-major,
      then y, then x order. */
  predicate Before(x: int, y: int, z: int, cx: int, cy: int, cz: int)
  {
    z < cz || (z == cz && (y < cy || (y == cy && x < cx)))
  }

  /** `now` is `prior` with every voxel of `region` before the cursor set to
      `value` at that voxel. */
  ghost predicate Painted(f: PixelFormat, d: Coord, prior: seq<byte>, now: seq<byte>,
                          value: (int, int, int) -> int, region: Box, cx: int, cy: int, cz: int)
  {
    Shaped(f, d, prior) && Shaped(f, d, now)
    && forall x, y, z :: InVolume(d, x, y, z) ==>
      VoxelAt(f, d, now, x, y, z)
      == if InBox(region, x, y, z) && Before(x, y, z, cx, cy, cz)
         then Stored(f, Index(d, x, y, z), value(x, y, z))
         else VoxelAt(f, d, prior, x, y, z)
  }

  /** `now` is `prior` with the whole of `region` set to `value`. */
  ghost predicate Filled(f: PixelFormat, d: Coord, prior: seq<byte>, now: seq<byte>,
                         value: (int, int, int) -> int, region: Box)
  {
    Shaped(f, d, prior) && Shaped(f, d, now)
    && forall x, y, z :: InVolume(d, x, y, z) ==>
      VoxelAt(f, d, now, x, y, z)
      == if InBox(region, x, y, z) then Stored(f, Index(d, x, y, z), value(x, y, z))
         else VoxelAt(f, d, prior, x, y, z)
  }

  lemma PaintStart(f: PixelFormat, d: Coord, prior: seq<byte>, value: (int, int, int) -> int, region: Box)
    requires Shaped(f, d, prior)
    ensures Painted(f, d, prior, prior, value, region, region.origin.x, region.origin.y, region.origin.z)
  {
  }

  /** Writing the cursor's voxel advances the cursor by one along x. */
  lemma PaintStep(f: PixelFormat, d: Coord, prior: seq<byte>, now: seq<byte>,
                  value: (int, int, int) -> int, region: Box, cx: int, cy: int, cz: int)
    requires Painted(f, d, prior, now, value, region, cx, cy, cz)
    requires InBox(region, cx, cy, cz) && InVolume(d, cx, cy, cz)
    ensures Painted(f, d, prior, WriteAt(f, d, now, cx, cy, cz, value(cx, cy, cz)), value, region, cx + 1, cy, cz)
  {
    WriteAtEffect(f, d, now, cx, cy, cz, value(cx, cy, cz));
  }

  /** A finished row moves the cursor to the start of the next row. */
  lemma PaintNextRow(f: PixelFormat, d: Coord, prior: seq<byte>, now: seq<byte>,
                     value: (int, int, int) -> int, region: Box, cx: int, cy: int, cz: int)
    requires Painted(f, d, prior, now, value, region, cx, cy, cz)
    requires cx >= region.origin.x + region.size.x
    ensures Painted(f, d, prior, now, value, region, region.origin.x, cy + 1, cz)
  {
    var x0 := region.origin.x;
    forall x, y, z | InBox(region, x, y, z)
      ensures Before(x, y, z, cx, cy, cz) == Before(x, y, z, x0, cy + 1, cz)
    {
    }
  }

  /** A finished plane moves the cursor to the start of the next plane. */
  lemma PaintNextPlane(f: PixelFormat, d: Coord, prior: seq<byte>, now: seq<byte>,
                       value: (int, int, int) -> int, region: Box, cy: int, cz: int)
    requires Painted(f, d, prior, now, value, region, region.origin.x, cy, cz)
    requires cy >= region.origin.y + region.size.y
    ensures Painted(f, d, prior, now, value, region, region.origin.x, region.origin.y, cz + 1)
  {
    var x0, y0 := region.origin.x, region.origin.y;
    forall x, y, z | InBox(region, x, y, z)
      ensures Before(x, y, z, x0, cy, cz) == Before(x, y, z, x0, y0, cz + 1)
    {
    }
  }

  /** Once the cursor has passed the last plane, the whole region is written. */
  lemma PaintDone(f: PixelFormat, d: Coord, prior: seq<byte>, now: seq<byte>,
                  value: (int, int, int) -> int, region: Box, cz: int)
    requires Painted(f, d, prior, now, value, region, region.origin.x, region.origin.y, cz)
    requires cz >= region.origin.z + region.size.z
    ensures Filled(f, d, prior, now, value, region)
  {
    forall x, y, z | InVolume(d, x, y, z)
      ensures VoxelAt(f, d, now, x, y, z)
        == if InBox(region, x, y, z) then Stored(f, Index(d, x, y, z), value(x, y, z))
           else VoxelAt(f, d, prior, x, y, z)
    {
      DoneIsBefore(region, x, y, z, cz);
      PassedCell(VoxelAt(f, d, now, x, y, z), Stored(f, Index(d, x, y, z), value(x, y, z)), VoxelAt(f, d, prior, x, y, z),
                 InBox(region, x, y, z), Before(x, y, z, region.origin.x, region.origin.y, cz));
    }
  }

  /** A cell that the scan has passed if it is in the region at all. */
  lemma PassedCell(now: int, written: int, prior: int, inRegion: bool, passed: bool)
    requires now == if inRegion && passed then written else prior
    requires inRegion ==> passed
    ensures now == if inRegion then written else prior
  {
  }

  lemma DoneIsBefore(region: Box, x: int, y: int, z: int, cz: int)
    requires cz >= region.origin.z + region.size.z
    ensures InBox(region, x, y, z) ==> Before(x, y, z, region.origin.x, region.origin.y, cz)
  {
  }

  /** An empty region changes nothing. */
  lemma FilledEmpty(f: PixelFormat, d: Coord, prior: seq<byte>, value: (int, int, int) -> int, region: Box)
    requires Shaped(f, d, prior)
    requires region.size.x <= 0 || region.size.y <= 0 || region.size.z <= 0
    ensures Filled(f, d, prior, prior, value, region)
  {
  }
}
