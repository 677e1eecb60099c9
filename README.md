# CIRCUS core, modelled in Dafny

This project models the computational core of CIRCUS, a web platform for
medical image research. It covers three groups of code.

- **The volume container** from `circus-rs`, with its geometry:
  - an in-memory voxel volume (`RawData`) with a fixed dimension, a pixel format and a byte buffer;
  - trilinear interpolation and the windowing applied to displayed pixels;
  - region fill and copy, format conversion, orthogonal re-slicing and oblique scanning;
  - the geometry of sections: a plane with an origin and two axes, line–plane intersection, and the intersection of two sections.
- **Client-side state logic** of the web UI and the development UI:
  - the connected-component post-processor, which renumbers components by size and merges the tail;
  - the view-state store and the VR view-state changes;
  - the partial volume descriptor parser and the loader cache keyed by series and descriptor;
  - the configuration store and the series configuration list;
  - the label menu commands and appearance changes, and adding a label under a unique name;
  - the tool registry and the toolbar's kebab-case names;
  - the revision selector and the choice display's consensus tallies.
- **Two server-side handlers:**
  - the case API: masking patient information, creating a case, posting a revision;
  - the PHP series-export validator.

Each core source file becomes one Dafny module. `Wrappers`, `Strings`, `Sorting`
and `Vectors` are shared helpers:
- `Strings` holds JavaScript/PHP number↔text conversions, split/join and first-occurrence replacement.
- `Sorting` holds the stable sort the source gets from `Array.prototype.sort`.

Code that updates state step by step is modelled as classes with `modifies`
frames, arrays and loops with invariants:
- `Volumes.RawData` and `CclProcessor`'s in-place passes over `labels` and `labelMap`;
- `ViewStates.ViewStateStore`, `ImageSource.LoaderCache` and `Configuration.ConfigurationStore`;
- `LabelMenu.LabelMenuSession`, `ToolInitializer.ToolCollection` and `Cases.CaseDocument`.

Reducers and pure helpers are functions. Most have lemmas or contracts relating
them to an independent description or to an inverse. A few selectors, such as
`Choice.Buttons`, are stated only as the choice they make.

How numbers are modelled:
- JavaScript numbers are modelled as `int` where the source uses integers and as `real` where it uses fractions.
- Typed-array stores wrap modulo 2^8 or 2^16 explicitly; see `PixelFormats.Stored`.
- A binary-format write keeps bit `7 - pos % 8` of `-value`, as the source's xor of the old byte does.

## Model

| member | source | states |
|---|---|---|
| PixelFormats.FitsInBuffer | packages/circus-rs/src/common/RawData.ts:258-274 | every voxel position of a buffer of the format's byte length lies inside the buffer for the accessor of its format |
| PixelFormats.Stored | packages/circus-rs/src/common/RawData.ts:258-274 | the value a typed-array store keeps is within the format's levels and equals the written value whenever that is within them |
| PixelFormats.ReadVoxel | packages/circus-rs/src/common/RawData.ts:258-274 | every read returns a value between the format's minimum and maximum level |
| PixelFormats.WriteVoxel | packages/circus-rs/src/common/RawData.ts:258-274 | a write keeps the buffer's length and changes no byte except those holding the written voxel (one byte, two bytes little-endian, or the packed bit's byte) |
| PixelFormats.ReadAfterWrite | packages/circus-rs/src/common/RawData.ts:258-274 | reading a voxel just written returns the stored (wrapped) value |
| PixelFormats.ReadAfterWriteInLevels | packages/circus-rs/test/RawData.js:22-47 | a value within the format's levels reads back unchanged |
| PixelFormats.ReadAfterWriteOther | packages/circus-rs/src/common/RawData.ts:258-274 | writing one voxel leaves every other voxel's value unchanged, for every format |
| PixelFormats.BinaryWriteOther | packages/circus-rs/src/common/RawData.ts:267-272 | a binary write changes no other voxel, including the seven sharing its byte |
| PixelFormats.SameByteOtherBit | packages/circus-rs/src/common/RawData.ts:267-272 | two distinct voxels in the same byte use distinct bits |
| PixelFormats.WithBitSame | packages/circus-rs/src/common/RawData.ts:269-271 | setting a bit makes that bit the given value |
| PixelFormats.WithBitOther | packages/circus-rs/src/common/RawData.ts:269-271 | setting a bit leaves every other bit unchanged |
| PixelFormats.VoxelsDetermineBytes | packages/circus-rs/src/common/RawData.ts:344-367 | two buffers of a volume's byte length with the same voxel values are the same bytes |
| RawVolume.IndexInRange | packages/circus-rs/src/common/RawData.ts:74-87 | the linear index `x + y*rx + z*rx*ry` of an in-volume voxel is within the voxel count |
| RawVolume.IndexInjective | packages/circus-rs/src/common/RawData.ts:74-87 | distinct in-volume voxels have distinct linear indices |
| RawVolume.ByteLengthOfSlices | packages/circus-rs/src/common/RawData.ts:180-200 | the byte length of a volume is the byte length of one slice times the number of slices |
| RawVolume.VoxelFits | packages/circus-rs/src/common/RawData.ts:233-252 | every in-volume voxel of a buffer allocated by `setDimension` can be read and written |
| RawVolume.WriteAtEffect | packages/circus-rs/src/common/RawData.ts:74-91 | `writePixelAt` changes exactly the addressed voxel, to the stored value |
| RawVolume.WriteThenRead | packages/circus-rs/src/common/RawData.ts:74-91 | `getPixelAt` after `writePixelAt` of an in-level value returns that value |
| RawVolume.VoxelInLevels | packages/circus-rs/src/common/RawData.ts:74-76 | every voxel value lies within the format's levels |
| RawVolume.EdgeClamp | packages/circus-rs/src/common/RawData.ts:117-132 | the clamped cell index lies in `0..n-2` and the coordinate lies within that cell |
| RawVolume.Interpolate | packages/circus-rs/src/common/RawData.ts:108-115 | a coordinate outside the volume interpolates to 0 |
| RawVolume.EdgeClampAtInteger | packages/circus-rs/src/common/RawData.ts:117-132 | an integer coordinate selects its own cell, or the last cell at the far edge |
| RawVolume.InterpolateAtVoxel | packages/circus-rs/src/common/RawData.ts:108-149 | interpolation at integer coordinates returns the voxel's own value |
| RawVolume.InterpolateInside | packages/circus-rs/src/common/RawData.ts:134-140 | inside the volume the value is the z-interpolation of the two axial interpolations of the clamped cell |
| RawVolume.TrilinearAtVoxel | packages/circus-rs/src/common/RawData.ts:134-171 | the z-interpolation at an integer grid point is that voxel's value |
| RawVolume.AxialAtVoxel | packages/circus-rs/src/common/RawData.ts:151-171 | the axial interpolation at integer x and y is that voxel's value |
| RawVolume.AxialInLevels | packages/circus-rs/src/common/RawData.ts:151-171 | the axial interpolation stays within the format's levels |
| RawVolume.InterpolateInLevels | packages/circus-rs/src/common/RawData.ts:108-149 | every interpolated value stays within the format's levels |
| RawVolume.Round | packages/circus-rs/src/common/RawData.ts:453-461 | `Math.round` returns the integer within half a unit of its argument, half-way cases upward |
| RawVolume.RoundOfInteger | packages/circus-rs/src/common/RawData.ts:453-461 | rounding an integer returns it |
| RawVolume.RoundMonotonic | packages/circus-rs/src/common/RawData.ts:453-461 | rounding is monotonic |
| RawVolume.ApplyWindow | packages/circus-rs/src/common/RawData.ts:453-461 | a windowed value lies in 0..255 |
| RawVolume.ApplyWindowMonotonic | packages/circus-rs/src/common/RawData.ts:453-461 | with a positive width the window is monotonic in the pixel value |
| RawVolume.ApplyWindowSaturates | packages/circus-rs/src/common/RawData.ts:453-461 | values at or below `level - width/2` show 0 and values at or above `level + width/2` show 255 |
| RawVolume.ApplyWindowCentre | packages/circus-rs/src/common/RawData.ts:453-461 | the window level itself shows as 128 |
| RawVolume.SliceBounds | packages/circus-rs/src/common/RawData.ts:180-224 | the bytes of every slice lie inside the buffer |
| RawVolume.SliceBytes | packages/circus-rs/src/common/RawData.ts:208-224 | a slice's bytes have the slice's byte length |
| RawVolume.WithSlice | packages/circus-rs/src/common/RawData.ts:180-201 | replacing a slice keeps the buffer shaped for the volume |
| RawVolume.SliceOfWithSlice | packages/circus-rs/src/common/RawData.ts:180-224 | `getSingleImage(z)` after `insertSingleImage(z, img)` returns the first slice-length bytes of `img` |
| RawVolume.OtherSliceOfWithSlice | packages/circus-rs/src/common/RawData.ts:195-201 | inserting slice z leaves every other slice's bytes unchanged |
| RawVolume.BinarySliceBitOrder | packages/circus-rs/test/RawData.js:10-20 | a binary slice's bytes are read most significant bit first |
| RegionWrites.PaintStart | packages/circus-rs/src/common/RawData.ts:380-410 | before the first voxel nothing of the region is painted and nothing else changed |
| RegionWrites.PaintStep | packages/circus-rs/src/common/RawData.ts:380-410 | writing the current voxel extends the painted prefix by one voxel in x-fastest order |
| RegionWrites.PaintNextRow | packages/circus-rs/src/common/RawData.ts:380-410 | finishing a row moves the painted prefix to the start of the next row |
| RegionWrites.PaintNextPlane | packages/circus-rs/src/common/RawData.ts:380-410 | finishing a plane moves the painted prefix to the next plane |
| RegionWrites.PaintDone | packages/circus-rs/src/common/RawData.ts:380-410 | after the last plane every region voxel holds its fill value and every other voxel its old value |
| RegionWrites.FilledEmpty | packages/circus-rs/src/common/RawData.ts:380-410 | an empty region fills nothing |
| Volumes.AxisPlane | packages/circus-rs/src/common/RawData.ts:471-512 | `'sagittal'` and `'coronal'` select those planes and every other axis name the axial plane |
| Volumes.PlaneVoxelInVolume | packages/circus-rs/src/common/RawData.ts:471-512 | every output pixel of a plane through an in-volume target addresses an in-volume voxel |
| Volumes.Step | packages/circus-rs/src/common/RawData.ts:514-532 | the per-pixel step taken `n` times spans the whole axis |
| Volumes.ToIndexSection | packages/circus-rs/src/common/RawData.ts:534-584 | the index-space section times the voxel size is the millimetre section, per component |
| Volumes.CopyRegionWithin | packages/circus-rs/src/common/RawData.ts:416-444 | within the destination the clamped copy region is exactly the moved source box |
| Volumes.CopyRegionInside | packages/circus-rs/src/common/RawData.ts:416-444 | the clamped copy region lies inside the destination |
| Volumes.CopyOutcome | packages/circus-rs/src/common/RawData.ts:416-444 | filling the clamped region with the offset source reads amounts to the copy's specification |
| Volumes.CopyVoxel | packages/circus-rs/src/common/RawData.ts:416-444 | one destination voxel after the copy holds the moved source voxel inside the box and its old value elsewhere |
| Volumes.PlanePixel | packages/circus-rs/src/common/RawData.ts:471-512 | every re-sliced output pixel lies in 0..255 |
| Volumes.ObliquePixel | packages/circus-rs/src/common/RawData.ts:586-629 | with a window every scanned pixel lies in 0..255 |
| Volumes.ScanPositionStep | packages/circus-rs/src/common/RawData.ts:603-626 | the incremental position update of the scan equals the position computed directly from the grid indices |
| Volumes.RowAppended | packages/circus-rs/src/common/RawData.ts:471-512 | appending one correct row to a correctly rendered prefix gives a longer correct prefix |
| Volumes.ObliqueRowAppended | packages/circus-rs/src/common/RawData.ts:586-629 | the same for the oblique scan |
| Volumes.RawData.constructor | packages/circus-rs/src/common/RawData.ts:20-72 | a new container has no dimension and no voxel size |
| Volumes.RawData.SetDimension | packages/circus-rs/src/common/RawData.ts:233-252 | throws for a non-positive size, for an already fixed size, above 1024³ voxels and for a binary slice area that is not a multiple of 8; otherwise it fixes the size and format and allocates a zero buffer of the format's byte length |
| Volumes.RawData.Write | packages/circus-rs/src/common/RawData.ts:258-274 | the accessor's new buffer is the format's write of the old one |
| Volumes.RawData.GetPixelAt | packages/circus-rs/src/common/RawData.ts:74-76 | returns the voxel's value, within the format's levels |
| Volumes.RawData.WritePixelAt | packages/circus-rs/src/common/RawData.ts:85-87 | changes exactly the addressed voxel, to the stored value |
| Volumes.RawData.MarkSliceAsLoaded | packages/circus-rs/src/common/RawData.ts:93-98 | fails without a dimension and throws for z out of range, leaving the loaded slices; otherwise adds z to them |
| Volumes.RawData.InsertSingleImage | packages/circus-rs/src/common/RawData.ts:180-201 | throws without a dimension, for z out of range and for a short image; otherwise replaces slice z and marks it loaded |
| Volumes.RawData.GetSingleImage | packages/circus-rs/src/common/RawData.ts:208-224 | throws without a dimension or for z out of range; otherwise returns slice z's bytes |
| Volumes.RawData.GetDimension | packages/circus-rs/src/common/RawData.ts:280-285 | throws exactly when no dimension is set; otherwise returns the positive size |
| Volumes.RawData.DataSize | packages/circus-rs/src/common/RawData.ts:331-336 | throws without a dimension; otherwise returns the buffer's byte length |
| Volumes.RawData.SetVoxelDimension | packages/circus-rs/src/common/RawData.ts:315-317 | sets the voxel size and nothing else |
| Volumes.RawData.GetMmDimension | packages/circus-rs/src/common/RawData.ts:634-643 | throws without a dimension or without a voxel size; otherwise returns the size times the voxel size per axis |
| Volumes.RawData.PaintRegion | packages/circus-rs/src/common/RawData.ts:380-410 | every voxel of the region holds the stored fill value and every other voxel is unchanged |
| Volumes.RawData.FillCuboid | packages/circus-rs/src/common/RawData.ts:380-410 | fills the box with a constant or a generator's values and changes nothing outside it |
| Volumes.RawData.FillAll | packages/circus-rs/src/common/RawData.ts:369-374 | fails without a dimension and leaves the buffer; otherwise every voxel holds the stored fill value |
| Volumes.RawData.Copy | packages/circus-rs/src/common/RawData.ts:416-444 | throws when copying from itself or without dimensions, leaving the data; otherwise the moved box of the source is copied, clamped to the destination, and every other voxel is unchanged |
| Volumes.RawData.Convert | packages/circus-rs/src/common/RawData.ts:344-363 | fails without a dimension; with one, throws exactly for a binary target with a slice area not a multiple of 8; otherwise every voxel becomes the target format's store of the mapped old value |
| Volumes.RawData.RenderRow | packages/circus-rs/src/common/RawData.ts:471-512 | writes one row of windowed plane pixels and keeps the rows before it |
| Volumes.RawData.RenderRows | packages/circus-rs/src/common/RawData.ts:471-512 | fills the whole plane image, row after row |
| Volumes.RawData.AppendRow | packages/circus-rs/src/common/RawData.ts:471-512 | one outer-loop iteration: a correctly rendered prefix grows by one row |
| Volumes.RawData.RenderPlane | packages/circus-rs/src/common/RawData.ts:471-512 | pixel k of the image is the windowed voxel at column `k % w`, row `k / w` of the plane |
| Volumes.RawData.OrthogonalMpr | packages/circus-rs/src/common/RawData.ts:471-512 | fails exactly when no dimension is set; refuses exactly sagittal or coronal planes of a partly loaded volume; otherwise returns the plane's size and windowed pixels |
| Volumes.RawData.ScanRow | packages/circus-rs/src/common/RawData.ts:586-629 | writes one row of the oblique scan and nothing else of the image |
| Volumes.RawData.ScanOblique | packages/circus-rs/src/common/RawData.ts:586-629 | pixel k is the interpolated, rounded or windowed value at grid point `(k % w, k / w)`, and 0 outside the volume; the rest of the buffer is untouched; without a dimension it fails and writes nothing |
| Volumes.RawData.ScanNextRow | packages/circus-rs/src/common/RawData.ts:586-629 | one outer-loop iteration of the scan extends the correct prefix by a row |
| Volumes.RawData.ScanObliqueSection | packages/circus-rs/src/common/RawData.ts:514-532 | fails without a dimension and writes nothing; otherwise scans the section with steps of axis / output size |
| Volumes.RawData.ScanObliqueSectionInMillimeter | packages/circus-rs/src/common/RawData.ts:534-584 | fails without a voxel size, then without a dimension, writing nothing; otherwise scans the section converted to index space by the voxel size |
| Vectors.NormSquared | packages/circus-rs/src/common/geometry/Section.ts:92-104 | a squared length is never negative |
| Sections.TranslateSection | packages/circus-rs/src/common/geometry/Section.ts:46-53 | keeps both axes and moves the origin by exactly `delta` |
| Sections.SectionEquals | packages/circus-rs/src/common/geometry/Section.ts:201-209 | component-wise equality is equality of sections |
| Sections.NormalVector | packages/circus-rs/src/common/geometry/Section.ts:188-193 | the normal is orthogonal to both axes |
| Sections.CrossOrthogonal | packages/circus-rs/src/common/geometry/Section.ts:188-193 | a cross product is orthogonal to both factors |
| Sections.LinePlaneNone | packages/circus-rs/src/common/geometry/Section.ts:61-90 | no intersection exactly when both ends lie on the plane or strictly on the same side |
| Sections.IntersectionOfLineAndPlane | packages/circus-rs/src/common/geometry/Section.ts:61-90 | a point found lies on the segment, at a parameter in [0, 1], and on the section's plane |
| Sections.LinePlaneOnBothAt | packages/circus-rs/src/common/geometry/Section.ts:61-90 | the same for a plane given by origin and normal |
| Sections.RateBounds | packages/circus-rs/src/common/geometry/Section.ts:83-85 | the interpolation rate lies in [0, 1] and reaches the zero of the distance |
| Sections.OnPlane | packages/circus-rs/src/common/geometry/Section.ts:83-86 | the distance along the segment is linear in the rate |
| Sections.NormalScaleInvariant | packages/circus-rs/src/common/geometry/Section.ts:61-72 | scaling the normal by a positive factor changes no intersection |
| Sections.CornersWithin | packages/circus-rs/src/common/geometry/Section.ts:92-104 | the origin, and for orthogonal axes all four corners, lie within the section |
| Sections.AlongAxisWithin | packages/circus-rs/src/common/geometry/Section.ts:92-104 | along a non-zero x axis perpendicular to the y axis, `origin + t·xAxis` is within the section exactly when 0 ≤ t ≤ 1, so the far edge is inside and any point beyond it is not |
| Sections.IntersectionOfLineAndSection | packages/circus-rs/src/common/geometry/Section.ts:110-119 | an intersection exists exactly when the plane intersection exists and lies within the section, and then it is that point |
| Sections.Edges | packages/circus-rs/src/common/geometry/Section.ts:140-152 | a section has four edges |
| Sections.FirstFar | packages/circus-rs/src/common/geometry/Section.ts:172-178 | finds the first later intersection far from the first one, or shows there is none |
| Sections.IntersectionOfTwoSections | packages/circus-rs/src/common/geometry/Section.ts:130-181 | the loop computes the two-section intersection |
| Sections.Crossings | packages/circus-rs/src/common/geometry/Section.ts:155-161 | collects the plane intersections of the four edges in order |
| Sections.FarIndex | packages/circus-rs/src/common/geometry/Section.ts:172-178 | the search loop finds the first far intersection |
| Sections.TwoSectionsSegment | packages/circus-rs/src/common/geometry/Section.ts:163-181 | a result starts at the first crossing, ends at a later one far from it, and some crossing lies within the base section |
| Sections.CoplanarTargetNone | packages/circus-rs/src/common/geometry/Section.ts:162-165 | a target lying in the base plane gives no intersection |
| Sections.SelfIntersectionNone | packages/circus-rs/src/common/geometry/Section.ts:130-181 | a section does not intersect itself in a line |
| CclProcessor.Prefix | packages/circus-web-ui/src/pages/case-detail/createCclProcessor.ts:53-56 | `slice(0, n)` is the prefix of length `min(n, length)` |
| CclProcessor.NamesPositional | packages/circus-web-ui/src/pages/case-detail/createCclProcessor.ts:39-56 | with few components the names are the first ordinal names |
| CclProcessor.NamesMerged | packages/circus-web-ui/src/pages/case-detail/createCclProcessor.ts:39-56 | with more components than the maximum, the last name names the merged rest |
| CclProcessor.NamesBounded | packages/circus-web-ui/src/pages/case-detail/createCclProcessor.ts:39-56 | there are never more names than components, nor more than 13 |
| CclProcessor.Range | packages/circus-web-ui/src/pages/case-detail/createCclProcessor.ts:59 | the index array is `0..n-1` |
| CclProcessor.VolumeOrderPermutes | packages/circus-web-ui/src/pages/case-detail/createCclProcessor.ts:59-65 | the sorted index order is a permutation with volumes non-increasing |
| CclProcessor.SortedLabelsFollowOrder | packages/circus-web-ui/src/pages/case-detail/createCclProcessor.ts:73-75 | the sorted labels are the labels taken in that order |
| CclProcessor.SortedLabelsInVolume | packages/circus-web-ui/src/pages/case-detail/createCclProcessor.ts:73-75 | sorting keeps every bounding box inside the volume |
| CclProcessor.RelabelTable | packages/circus-web-ui/src/pages/case-detail/createCclProcessor.ts:66-69 | one new label per old label |
| CclProcessor.RelabelTableInverts | packages/circus-web-ui/src/pages/case-detail/createCclProcessor.ts:66-69 | the component of rank i gets label i + 1 |
| CclProcessor.RelabelTableUndoes | packages/circus-web-ui/src/pages/case-detail/createCclProcessor.ts:66-69 | each new label lies in 1..n and leads back to its component |
| CclProcessor.RelabelRanks | packages/circus-web-ui/src/pages/case-detail/createCclProcessor.ts:66-69 | new labels are distinct, in 1..n, and a larger component gets a smaller label |
| CclProcessor.RanksOfOrder | packages/circus-web-ui/src/pages/case-detail/createCclProcessor.ts:66-69 | the same for any volume-sorted permutation |
| CclProcessor.RanksMonotone | packages/circus-web-ui/src/pages/case-detail/createCclProcessor.ts:66-69 | ranks are monotone in volume |
| CclProcessor.BuildRelabel | packages/circus-web-ui/src/pages/case-detail/createCclProcessor.ts:66-69 | the loop fills the inverse-permutation table |
| CclProcessor.RelabelMap | packages/circus-web-ui/src/pages/case-detail/createCclProcessor.ts:70-72 | the renumbered map is a byte map of the same length |
| CclProcessor.RelabelMapRanks | packages/circus-web-ui/src/pages/case-detail/createCclProcessor.ts:58-72 | background and unknown labels become 0 and every component voxel gets its component's new label |
| CclProcessor.PositionIsIndex | packages/circus-web-ui/src/pages/case-detail/createCclProcessor.ts:111 | the position the merge loop computes is the voxel's linear index |
| CclProcessor.Widen | packages/circus-web-ui/src/pages/case-detail/createCclProcessor.ts:78-95 | the merged box adds the volumes and takes, per axis, the smaller minimum and the larger maximum |
| CclProcessor.Gathered | packages/circus-web-ui/src/pages/case-detail/createCclProcessor.ts:77-95 | folding the tail into one component keeps a well-formed box |
| CclProcessor.GatheredVolume | packages/circus-web-ui/src/pages/case-detail/createCclProcessor.ts:77-95 | the merged volume is the sum of the folded volumes |
| CclProcessor.GatheredCovers | packages/circus-web-ui/src/pages/case-detail/createCclProcessor.ts:77-95 | the merged box contains every folded box |
| CclProcessor.GatheredTight | packages/circus-web-ui/src/pages/case-detail/createCclProcessor.ts:77-95 | each bound of the merged box is the bound of some folded box |
| CclProcessor.Merged | packages/circus-web-ui/src/pages/case-detail/createCclProcessor.ts:77-95 | merging keeps the label array's length |
| CclProcessor.RecolourBox | packages/circus-web-ui/src/pages/case-detail/createCclProcessor.ts:96-117 | inside the box, voxels of the old label get the new one; nothing else changes |
| CclProcessor.Absorb | packages/circus-web-ui/src/pages/case-detail/createCclProcessor.ts:78-95 | only the kept entry changes, to its widening by the absorbed one |
| CclProcessor.MergeStep | packages/circus-web-ui/src/pages/case-detail/createCclProcessor.ts:96-117 | recolouring one more component extends the merged-map invariant by one label |
| CclProcessor.MergeTail | packages/circus-web-ui/src/pages/case-detail/createCclProcessor.ts:77-118 | the labels become the merged labels and the map satisfies the merged-map invariant |
| CclProcessor.FoldComponent | packages/circus-web-ui/src/pages/case-detail/createCclProcessor.ts:77-118 | one loop iteration folds one more component into the kept one |
| CclProcessor.MergedMapFolds | packages/circus-web-ui/src/pages/case-detail/createCclProcessor.ts:96-117 | a voxel of a folded component inside its box ends with the kept label |
| CclProcessor.FailedOutput | packages/circus-web-ui/src/pages/case-detail/createCclProcessor.ts:27-38 | a failed labelling gives no labels and the single empty name |
| CclProcessor.Process | packages/circus-web-ui/src/pages/case-detail/createCclProcessor.ts:20-125 | without a labelling returns the failed output; otherwise the names, the sorted and merged labels, and a label map renumbered by size with the tail merged |
| CclProcessor.Renumber | packages/circus-web-ui/src/pages/case-detail/createCclProcessor.ts:58-75 | returns the labels sorted by volume and the map renumbered by rank |
| ViewStates.FindIndex | packages/circus-rs-develui/src/store/viewStates.ts:27 | the index of the first entry with the name, or -1 exactly when there is none |
| ViewStates.FindEntry | packages/circus-rs-develui/src/store/viewStates.ts:62 | an entry with the name when one exists |
| ViewStates.SelectNamedState | packages/circus-rs-develui/src/store/viewStates.ts:66-67 | an empty name selects nothing; otherwise the named entry |
| ViewStates.Initialized | packages/circus-rs-develui/src/store/viewStates.ts:18-22 | an empty or existing name changes nothing; a new name is appended at version 0 |
| ViewStates.InitializedKeepsNamesUnique | packages/circus-rs-develui/src/store/viewStates.ts:18-22 | initialising keeps names unique and makes the name present |
| ViewStates.Updated | packages/circus-rs-develui/src/store/viewStates.ts:24-32 | no entry is added, removed or renamed, and unique names stay unique; only the named entry changes, to the new state and version, and only if its state differs |
| ViewStates.Disposed | packages/circus-rs-develui/src/store/viewStates.ts:34-41 | an empty or absent name changes nothing; otherwise the first entry with the name is cut out and the rest keep their order |
| ViewStates.DisposedRemovesEntry | packages/circus-rs-develui/src/store/viewStates.ts:34-41 | disposing removes exactly the named entry |
| ViewStates.Names | packages/circus-rs-develui/src/store/viewStates.ts:51-57 | the names of the entries in order |
| ViewStates.StateNames | packages/circus-rs-develui/src/store/viewStates.ts:51-57 | the listed names are distinct, sorted by UTF-16 code units as the default `Array.prototype.sort` compares, and exactly the stored names |
| ViewStates.NextVersion | packages/circus-rs-develui/src/store/viewStates.ts:101-110 | the version after a non-zero version v is v + 1, and otherwise 1 |
| ViewStates.NextVersionAdvances | packages/circus-rs-develui/src/store/viewStates.ts:101-110 | the next version is positive and above the current one |
| ViewStates.RegisteredHoldsState | packages/circus-rs-develui/src/store/viewStates.ts:113-120 | after registering, the name is present with the given state and names stay unique |
| ViewStates.ViewStateStore.constructor | packages/circus-rs-develui/src/store/viewStates.ts:11-16 | the store starts empty |
| ViewStates.ViewStateStore.InitializeViewState | packages/circus-rs-develui/src/store/viewStates.ts:18-22 | applies the initialising reducer |
| ViewStates.ViewStateStore.UpdateViewStateReducer | packages/circus-rs-develui/src/store/viewStates.ts:24-32 | applies the update reducer |
| ViewStates.ViewStateStore.DisposeViewState | packages/circus-rs-develui/src/store/viewStates.ts:34-41 | applies the dispose reducer |
| ViewStates.ViewStateStore.UpdateViewState | packages/circus-rs-develui/src/store/viewStates.ts:101-110 | updates with the given version or the next version of the current entry |
| ViewStates.ViewStateStore.RegisterViewState | packages/circus-rs-develui/src/store/viewStates.ts:113-120 | initialises and then updates the named state |
| ViewStates.ViewStateStore.ModifyViewState | packages/circus-rs-develui/src/store/viewStates.ts:127-136 | fails exactly for an unknown name and leaves the store; otherwise stores the modified state at the next version |
| VrStateChange.Apply | packages/circus-rs-develui/src/util/createVrStateChangeDispatcher.ts:14-129 | each setter sets its own field and nothing else |
| VrStateChange.RangeOnExistingSubVolume | packages/circus-rs-develui/src/util/createVrStateChangeDispatcher.ts:75-77 | with a sub-volume the range setter changes the offset and extent of its axis only |
| VrStateChange.RangeCreatesSubVolume | packages/circus-rs-develui/src/util/createVrStateChangeDispatcher.ts:78-85 | without one, a sub-volume shaped from the voxel count is created |
| VrStateChange.RangeWithoutVoxelCount | packages/circus-rs-develui/src/util/createVrStateChangeDispatcher.ts:75-86 | without a sub-volume and without a voxel count nothing changes |
| VrStateChange.ApplyIdempotent | packages/circus-rs-develui/src/util/createVrStateChangeDispatcher.ts:70-129 | dispatching a change twice equals dispatching it once |
| VrStateChange.RangesCommute | packages/circus-rs-develui/src/util/createVrStateChangeDispatcher.ts:70-129 | range changes on different axes commute |
| PartialVolumeDescriptors.ToPartialVolumeDescriptor | packages/circus-rs-develui/src/util/toPartialVolumeDescriptor.ts:7-22 | undefined exactly when no field is a number; a descriptor exactly when start and end are numbers, with a zero or missing delta dropped; otherwise an error |
| PartialVolumeDescriptors.ExtraFieldsIgnored | packages/circus-rs-develui/src/util/toPartialVolumeDescriptor.ts:8-10 | fields after the third do not matter |
| PartialVolumeDescriptors.EmptyIsUndefined | packages/circus-rs-develui/src/util/toPartialVolumeDescriptor.ts:12-13 | the empty text describes nothing |
| PartialVolumeDescriptors.NoNumbersIsUndefined | packages/circus-rs-develui/src/util/toPartialVolumeDescriptor.ts:12-13 | fields that are not numbers describe nothing |
| PartialVolumeDescriptors.StartWithoutEndThrows | packages/circus-rs-develui/src/util/toPartialVolumeDescriptor.ts:16-21 | a start without an end is an error |
| ImageSource.StringifyParts | packages/circus-web-ui/src/utils/useImageSource.ts:12-13 | the stringified descriptor is three `:`-free number texts joined by `:`, with no `&` |
| ImageSource.ParseStringified | packages/circus-web-ui/src/utils/useImageSource.ts:12-13 | parsing a stringified descriptor gives it back, with a zero delta as undefined |
| ImageSource.StringifyInjective | packages/circus-web-ui/src/utils/useImageSource.ts:12-13 | distinct descriptors stringify differently |
| ImageSource.CacheKeyInjective | packages/circus-web-ui/src/utils/useImageSource.ts:28-31 | the cache key determines the series and the descriptor |
| ImageSource.FirstInvalid | packages/circus-web-ui/src/utils/useImageSource.ts:26-27 | the position of the first invalid descriptor, with all entries before it valid |
| ImageSource.VolumeLoader.constructor | packages/circus-web-ui/src/utils/useImageSource.ts:35-39 | a loader remembers its series and descriptor |
| ImageSource.ListedLoadersMatch | packages/circus-web-ui/src/utils/useImageSource.ts:24-44 | every listed loader belongs to its entry, and two entries share a loader exactly when they are equal |
| ImageSource.GrownWellKeyed | packages/circus-web-ui/src/utils/useImageSource.ts:28-41 | every cache entry keeps holding the loader of its own key |
| ImageSource.LoaderCache.Serve | packages/circus-web-ui/src/utils/useImageSource.ts:28-41 | returns the cached loader for the entry's key or caches a fresh one |
| ImageSource.LoaderCache.PendingVolumeLoaders | packages/circus-web-ui/src/utils/useImageSource.ts:23-44 | fails exactly when some descriptor is invalid, having cached the entries before it; otherwise lists one loader per entry |
| SeriesExport.ValidateOutcome | packages/circus-web-ui/app/controllers/SeriesExportController.php:83-138 | fails first without a series id, then for an unknown series; it passes only when start and end images are given and each lies in some range piece of the series; every failure is one of the four messages |
| SeriesExport.Validate | packages/circus-web-ui/app/controllers/SeriesExportController.php:83-138 | the controller's checks and range loop give exactly the validation outcome |
| SeriesExport.ScanRanges | packages/circus-web-ui/app/controllers/SeriesExportController.php:104-135 | the two loop flags say whether start and end lie in some piece of the image range |
| SeriesExport.CoveredWithinAll | packages/circus-web-ui/app/controllers/SeriesExportController.php:117-138 | the loop's flag equals membership of the number in some piece |
| SeriesExport.SinglePieceCovers | packages/circus-web-ui/app/controllers/SeriesExportController.php:105-108 | a single number covers exactly itself |
| SeriesExport.RangePieceCovers | packages/circus-web-ui/app/controllers/SeriesExportController.php:105-108 | `a-b` covers exactly a..b |
| SeriesExport.SplitHasSeparatorPieces | packages/circus-web-ui/app/controllers/SeriesExportController.php:105-106 | a piece with `-` splits into at least two parts |
| SeriesExport.StartAndEndSwap | packages/circus-web-ui/app/controllers/SeriesExportController.php:117-138 | swapping start and end never changes the outcome |
| Configuration.LabelHost | packages/circus-rs-develui/src/store/configuration.ts:4-11 | the port is appended exactly when it is neither empty nor 80 |
| Configuration.SeriesSelector | packages/circus-rs-develui/src/store/configuration.ts:79-87 | no series exactly when no entry is selected; otherwise the first selected entry's series |
| Configuration.SeriesSelectorFindsFirst | packages/circus-rs-develui/src/store/configuration.ts:79-87 | the first selected entry is the one chosen |
| Configuration.VrConfigSelector | packages/circus-rs-develui/src/store/configuration.ts:89-115 | fails exactly without a series; the label and mask paths appear exactly when their flags are "1", each the configured path with its first placeholder replaced through `replace` |
| Configuration.PlaceholderReplaced | packages/circus-rs-develui/src/store/configuration.ts:110-111 | the first placeholder becomes the series id with its `$` patterns expanded, and exactly the series id when that has no `$` |
| Configuration.DefaultLabelPathSubstitute | packages/circus-rs-develui/src/store/configuration.ts:12 | the default label path gets the expanded series id, and exactly the series id when that has no `$` |
| Configuration.DefaultMaskPathSubstitute | packages/circus-rs-develui/src/store/configuration.ts:13 | the default mask path gets the expanded series id, and exactly the series id when that has no `$` |
| Configuration.DollarAmpersandKeepsPlaceholder | packages/circus-rs-develui/src/store/configuration.ts:110-111 | a series id ending in `$&` puts the placeholder back after the id, so the path keeps `(seriesUid)` |
| Configuration.DollarAmpersandSubstitution | packages/circus-rs-develui/src/store/configuration.ts:110-111 | `$&` in the replacement expands to the matched placeholder |
| Configuration.ConfigurationStore.constructor | packages/circus-rs-develui/src/store/configuration.ts:24-33 | the initial configuration |
| Configuration.ConfigurationStore.SetServer | packages/circus-rs-develui/src/store/configuration.ts:35-37 | sets the server and nothing else |
| Configuration.ConfigurationStore.SetSeriesEntries | packages/circus-rs-develui/src/store/configuration.ts:38-40 | sets the entries and nothing else |
| ConfigurationList.RemoveEntry | packages/circus-rs-develui/src/components/Configuration.tsx:63-64 | keeps exactly the entries with another id |
| ConfigurationList.EntryInput | packages/circus-rs-develui/src/components/Configuration.tsx:70-82 | changes one field of the entry with the id and nothing else |
| ConfigurationList.SetFieldChangesOne | packages/circus-rs-develui/src/components/Configuration.tsx:70-82 | setting a field changes that field only |
| ConfigurationList.SelectEntry | packages/circus-rs-develui/src/components/Configuration.tsx:84-91 | selects the entry with the id and deselects all others |
| ConfigurationList.SelectEntrySelects | packages/circus-rs-develui/src/components/Configuration.tsx:84-91 | an entry is selected exactly when it has the id and selection was asked |
| ConfigurationList.AddEntry | packages/circus-rs-develui/src/components/Configuration.tsx:93-103 | appends one blank, unselected entry |
| ConfigurationList.AddEntryKeepsSelection | packages/circus-rs-develui/src/components/Configuration.tsx:93-103 | adding an entry does not change the selected series |
| ConfigurationList.SelectThenSeriesSelector | packages/circus-rs-develui/src/components/Configuration.tsx:84-91 | after selecting an entry its series is the one used |
| ConfigurationList.DeselectThenNoSeries | packages/circus-rs-develui/src/components/Configuration.tsx:84-91 | after deselecting no series is used |
| LabelMenu.ActiveLabel | packages/circus-web-ui/src/pages/case-detail/LabelMenu.tsx:60-63 | the active label exists exactly when the index is in range |
| LabelMenu.RenameLabel | packages/circus-web-ui/src/pages/case-detail/LabelMenu.tsx:77-85 | renaming keeps the editing data sound |
| LabelMenu.RenameChangesOneName | packages/circus-web-ui/src/pages/case-detail/LabelMenu.tsx:77-85 | a cancelled or unchanged name changes nothing; otherwise only the active label's name changes |
| LabelMenu.RemoveLabel | packages/circus-web-ui/src/pages/case-detail/LabelMenu.tsx:86-95 | removes the active label from the series' labels |
| LabelMenu.RemoveKeepsIndexSound | packages/circus-web-ui/src/pages/case-detail/LabelMenu.tsx:86-95 | after removal the active index points at the next label, the new last one, or none |
| LabelMenu.RemoveWithoutActiveLabel | packages/circus-web-ui/src/pages/case-detail/LabelMenu.tsx:86-95 | with no active label, `splice(-1, 1)` removes the last label |
| LabelMenu.ConvertLabelType | packages/circus-web-ui/src/pages/case-detail/LabelMenu.tsx:104-112 | converting keeps the editing data sound |
| LabelMenu.ConvertChangesOneType | packages/circus-web-ui/src/pages/case-detail/LabelMenu.tsx:104-112 | only the active label's type changes, and only when a conversion exists |
| LabelMenu.HandleCommand | packages/circus-web-ui/src/pages/case-detail/LabelMenu.tsx:74-124 | every command keeps the editing data sound |
| LabelMenu.DisabledIsNoOp | packages/circus-web-ui/src/pages/case-detail/LabelMenu.tsx:74-76 | a disabled menu changes nothing |
| LabelMenu.ToggleTwiceRestores | packages/circus-web-ui/src/pages/case-detail/LabelMenu.tsx:118-122 | toggling hide-all twice restores the data |
| LabelMenu.AppearanceChange | packages/circus-web-ui/src/pages/case-detail/LabelMenu.tsx:126-139 | fails exactly without an active label |
| LabelMenu.AppearanceChangesActiveOnly | packages/circus-web-ui/src/pages/case-detail/LabelMenu.tsx:126-139 | only the active label's colour, alpha and hidden flag change |
| LabelMenu.CandidateInjective | packages/circus-web-ui/src/pages/case-detail/LabelMenu.tsx:141-149 | distinct suffixes give distinct candidate names |
| LabelMenu.UniqueLabelName | packages/circus-web-ui/src/pages/case-detail/LabelMenu.tsx:141-149 | the result is unused, is the name itself when that is free, and is otherwise `name + " " + k` for the smallest free k ≥ 2 |
| LabelMenu.FindLayoutItem | packages/circus-web-ui/src/pages/case-detail/LabelMenu.tsx:196-198 | the first layout item with the key, or none exactly when no item has it |
| LabelMenu.AddLabelCheck | packages/circus-web-ui/src/pages/case-detail/LabelMenu.tsx:175-206 | refuses without a viewer; passes exactly with a known viewer whose orientation allows the type |
| LabelMenu.LabelAdded | packages/circus-web-ui/src/pages/case-detail/LabelMenu.tsx:207-212 | appends the label, makes it active and keeps the other series |
| LabelMenu.LabelAddedSound | packages/circus-web-ui/src/pages/case-detail/LabelMenu.tsx:207-212 | the added label is the active one |
| LabelMenu.AddedNameKeepsDistinct | packages/circus-web-ui/src/pages/case-detail/LabelMenu.tsx:141-212 | adding under an unused name keeps names distinct |
| LabelMenu.LabelMenuSession.constructor | packages/circus-web-ui/src/pages/case-detail/LabelMenu.tsx:38-58 | the session holds the editing data and the new-label type |
| LabelMenu.LabelMenuSession.Command | packages/circus-web-ui/src/pages/case-detail/LabelMenu.tsx:74-124 | applies the command's reducer and reports whether to reveal |
| LabelMenu.LabelMenuSession.ChangeAppearance | packages/circus-web-ui/src/pages/case-detail/LabelMenu.tsx:126-139 | applies the appearance change or fails and leaves the data |
| LabelMenu.LabelMenuSession.AddLabel | packages/circus-web-ui/src/pages/case-detail/LabelMenu.tsx:172-213 | remembers the type; on refusal the data is unchanged; otherwise a label with the unique name is appended and made active |
| ToolInitializer.DefaultNamesDistinct | packages/circus-rs/src/browser/tool/tool-initializer.ts:14-27 | the default tool names are distinct |
| ToolInitializer.DefaultsHold | packages/circus-rs/src/browser/tool/tool-initializer.ts:14-32 | the default registry maps exactly the listed names to their classes |
| ToolInitializer.BucketIsBrush | packages/circus-rs/src/browser/tool/tool-initializer.ts:7-24 | `bucket` is bound to the class imported from `BrushTool` |
| ToolInitializer.Tool.constructor | packages/circus-rs/src/browser/tool/tool-initializer.ts:29-32 | a tool instance records its class |
| ToolInitializer.ToolCollection.constructor | packages/circus-rs/src/browser/tool/tool-initializer.ts:12-32 | one fresh, distinct instance per default tool |
| ToolInitializer.ToolCollection.RegisterTool | packages/circus-rs/src/browser/tool/tool-initializer.ts:34-39 | refuses a taken name unchanged; otherwise adds a fresh instance and keeps the others |
| ToolInitializer.ToolCollection.ToolFactory | packages/circus-rs/src/browser/tool/tool-initializer.ts:41-43 | returns the registered instance, or undefined for an unknown name |
| Cases.FindProject | packages/circus-api/src/api/cases/index.ts:17-19 | the first project with the id, or none exactly when no project has it |
| Cases.KeepPatientInfo | packages/circus-api/src/api/cases/index.ts:13-31 | an inaccessible project is an error with the source's message; keeping needs a wish to view |
| Cases.KeepIffViewable | packages/circus-api/src/api/cases/index.ts:13-31 | patient information is kept exactly when asked for and the project grants `viewPersonalInfo` |
| Cases.CaseDocument.MaskPatientInfo | packages/circus-api/src/api/cases/index.ts:13-31 | on error nothing changes; otherwise the cache is removed exactly when it may not be kept |
| Cases.CaseDocument.HandleGet | packages/circus-api/src/api/cases/index.ts:34-40 | drops the latest revision and masks the patient information |
| Cases.FirstPatientInfo | packages/circus-api/src/api/cases/index.ts:67 | the first series' patient information that exists |
| Cases.CollectDomains | packages/circus-api/src/api/cases/index.ts:52-68 | the distinct domains of the series, each once |
| Cases.MakeNewCase | packages/circus-api/src/api/cases/index.ts:42-95 | refuses exactly without write privilege; otherwise builds the new case document |
| Cases.PostRevision | packages/circus-api/src/api/cases/index.ts:119-132 | refuses a given date or creator with the source's messages; otherwise appends the stamped revision as the latest |
| Cases.EmptyStampsAccepted | packages/circus-api/src/api/cases/index.ts:119-132 | empty date and creator texts count as absent |
| Cases.PostTwice | packages/circus-api/src/api/cases/index.ts:119-132 | two posts append two revisions in order |
| Choice.NormalizeAll | packages/circus-ui-kit/src/cs/displays/Choice.tsx:25-27 | a bare caption becomes an item valued by its index; items stay |
| Choice.CaptionValuesDistinct | packages/circus-ui-kit/src/cs/displays/Choice.tsx:25-27 | distinct captions get distinct values |
| Choice.Buttons | packages/circus-ui-kit/src/cs/displays/Choice.tsx:43-50 | consensual mode uses its own buttons when given, otherwise the personal ones |
| Choice.FindChoice | packages/circus-ui-kit/src/cs/displays/Choice.tsx:55-59 | the first button loosely equal to the opinion, or none exactly when no button is |
| Choice.FeedbackKey | packages/circus-ui-kit/src/cs/displays/Choice.tsx:55-59 | when no button matches, the opinion is counted under its own value |
| Choice.FeedbackKeyOfFirstMatch | packages/circus-ui-kit/src/cs/displays/Choice.tsx:55-59 | the opinion is counted under the first matching button's `consensualMapsTo`, or under its own value when that button maps to nothing |
| Choice.LooseEqualsNumberText | packages/circus-ui-kit/src/cs/displays/Choice.tsx:58 | under `==`, a number equals its decimal text, either way round |
| Choice.PersonalCounts | packages/circus-ui-kit/src/cs/displays/Choice.tsx:52-63 | in personal mode nothing is counted; otherwise the counts tally the opinions' keys |
| Choice.TalliesStep | packages/circus-ui-kit/src/cs/displays/Choice.tsx:52-63 | counting one more opinion keeps the tally |
| Choice.CountsCoverOpinions | packages/circus-ui-kit/src/cs/displays/Choice.tsx:52-63 | every key has a positive count, and the counts of the keys add up to the number of opinions |
| Choice.FirstOccurrencesCover | packages/circus-ui-kit/src/cs/displays/Choice.tsx:52-63 | the multiplicities of the distinct keys add up to the number of keys |
| Choice.FirstOccurrences | packages/circus-ui-kit/src/cs/displays/Choice.tsx:52-63 | the key order holds exactly the keys seen, each once |
| Choice.InitialSelection | packages/circus-ui-kit/src/cs/displays/Choice.tsx:65-70 | outside consensual mode, the initial feedback; in consensual mode, a value exactly when the tally has one key, and then that key |
| Choice.SingleFirstOccurrence | packages/circus-ui-kit/src/cs/displays/Choice.tsx:65-70 | there is a single key exactly when all opinions agree |
| Choice.PreselectedIffUnanimous | packages/circus-ui-kit/src/cs/displays/Choice.tsx:65-70 | a value is preselected exactly when all opinions agree on it |
| Choice.Report | packages/circus-ui-kit/src/cs/displays/Choice.tsx:72-82 | valid exactly for a selected number that is some button's value; otherwise "Not selected" |
| Choice.StringNeverValid | packages/circus-ui-kit/src/cs/displays/Choice.tsx:72-82 | a text selection is never valid |
| Choice.ToggleButtonSelectsValid | packages/circus-ui-kit/src/cs/displays/Choice.tsx:117-123 | choosing a number-valued toggle button reports it valid |
| Choice.DropdownSelection | packages/circus-ui-kit/src/cs/displays/Choice.tsx:151-164 | the drop-down as written reports text |
| Choice.DropdownNeverValid | packages/circus-ui-kit/src/cs/displays/Choice.tsx:156 | so a drop-down choice is never valid |
| Choice.ButtonWithText | packages/circus-ui-kit/src/cs/displays/Choice.tsx:151-164 | finds the first button whose value has the option's text |
| Choice.DropdownSelectionCorrected | packages/circus-ui-kit/src/cs/displays/Choice.tsx:151-164 | the corrected selection has the option's text, and is a button's value whenever some button has that text |
| Choice.DropdownCorrectedValid | packages/circus-ui-kit/src/cs/displays/Choice.tsx:156 | the drop-down mapping text back to its button reports that button valid |
| RevisionSelector.OptionKeyInjective | packages/circus-web-ui/src/pages/case-detail/RevisionSelector.tsx:39 | distinct revision indices get distinct option keys |
| RevisionSelector.OptionKeysDistinct | packages/circus-web-ui/src/pages/case-detail/RevisionSelector.tsx:39 | the key function is injective |
| RevisionSelector.Reverse | packages/circus-web-ui/src/pages/case-detail/RevisionSelector.tsx:34-36 | the revisions newest first |
| RevisionSelector.BuildOptions | packages/circus-web-ui/src/pages/case-detail/RevisionSelector.tsx:33-40 | the loop builds one keyed option per revision, newest first |
| RevisionSelector.OptionsStep | packages/circus-web-ui/src/pages/case-detail/RevisionSelector.tsx:33-40 | one more revision adds a fresh key |
| RevisionSelector.TrailingStart | packages/circus-web-ui/src/pages/case-detail/RevisionSelector.tsx:28-31 | the start of the maximal trailing run of digits |
| RevisionSelector.TrailingDigits | packages/circus-web-ui/src/pages/case-detail/RevisionSelector.tsx:28-31 | the trailing digits are digits |
| RevisionSelector.HandleSelect | packages/circus-web-ui/src/pages/case-detail/RevisionSelector.tsx:28-31 | fails exactly when the value does not end in a digit |
| RevisionSelector.SelectRoundTrip | packages/circus-web-ui/src/pages/case-detail/RevisionSelector.tsx:28-39 | selecting an option key gives back its revision index |
| RevisionSelector.SelectedKeyListed | packages/circus-web-ui/src/pages/case-detail/RevisionSelector.tsx:41 | the selected key is listed exactly when the index is in range, for that revision |
| RsToolbar.ToKebabCase | packages/circus-rs-develui/src/components/RsToolbar.tsx:57-59 | the result has no capitals and one extra `-` per capital |
| RsToolbar.KebabOfConcat | packages/circus-rs-develui/src/components/RsToolbar.tsx:57-59 | conversion distributes over concatenation |
| RsToolbar.KebabIdempotent | packages/circus-rs-develui/src/components/RsToolbar.tsx:57-59 | converting twice equals converting once |
| RsToolbar.KebabOfOneUpper | packages/circus-rs-develui/src/components/RsToolbar.tsx:58 | a capital becomes `-` and its lower-case letter |
| RsToolbar.CelestialRotate | packages/circus-rs-develui/src/components/RsToolbar.tsx:48-51 | the tool name `celestialRotate` gives `celestial-rotate` |
| RsToolbar.KebabRoundTrip | packages/circus-rs-develui/src/components/RsToolbar.tsx:57-59 | for names without `-`, camel-casing the kebab name gives the name back |
| RsToolbar.ToLower | packages/circus-rs-develui/src/components/RsToolbar.tsx:58 | a capital's lower-case form is lower case |
| RsToolbar.ToUpper | packages/circus-rs-develui/src/components/RsToolbar.tsx:58 | the inverse case mapping |
| Strings.IntToString | packages/circus-web-ui/src/utils/useImageSource.ts:12-13 | a number's text is a sign exactly for negatives followed by digits |
| Strings.IntToStringInjective | packages/circus-web-ui/src/utils/useImageSource.ts:12-13 | distinct numbers have distinct texts |
| Strings.ParseIntOfIntToString | packages/circus-rs-develui/src/util/toPartialVolumeDescriptor.ts:8-10 | `parseInt` reads a number's text back |
| Strings.PhpIntvalOfIntToString | packages/circus-web-ui/app/controllers/SeriesExportController.php:117-128 | PHP's `intval` reads a number's text back |
| Strings.Split | packages/circus-rs-develui/src/util/toPartialVolumeDescriptor.ts:8-9 | at least one piece, none holding the separator |
| Strings.SplitJoin | packages/circus-web-ui/app/controllers/SeriesExportController.php:101 | splitting joined separator-free pieces gives them back |
| Strings.JoinSplit | packages/circus-web-ui/app/controllers/SeriesExportController.php:101 | joining the pieces of a split gives the text back |
| Strings.ReplaceFirst | packages/circus-rs-develui/src/store/configuration.ts:110-111 | text without the pattern is unchanged |
| Strings.ReplaceFirstAt | packages/circus-rs-develui/src/store/configuration.ts:110-111 | only the first occurrence is replaced, by the replacement with `$$`, `$&`, `` $` `` and `$'` expanded; a replacement without `$` is inserted as it is |
| Strings.SubstitutionLiteral | packages/circus-rs-develui/src/store/configuration.ts:110-111 | a replacement without `$` expands to itself |
| Strings.CodeUnits | packages/circus-rs-develui/src/store/viewStates.ts:56 | a character is one UTF-16 code unit below U+10000 and otherwise a surrogate pair starting with a high surrogate |
| Strings.Utf16Injective | packages/circus-rs-develui/src/store/viewStates.ts:56 | distinct strings have distinct UTF-16 encodings |
| Strings.LessEqTotal | packages/circus-rs-develui/src/store/viewStates.ts:56 | the UTF-16 code-unit order is total |
| Strings.LessEqTransitive | packages/circus-rs-develui/src/store/viewStates.ts:56 | the UTF-16 code-unit order is transitive |
| Strings.LessEqAntisymmetric | packages/circus-rs-develui/src/store/viewStates.ts:56 | the UTF-16 code-unit order is antisymmetric |
| Strings.AstralBeforeHighBmp | packages/circus-rs-develui/src/store/viewStates.ts:56 | a character above U+FFFF sorts before U+FF21, unlike code-point order |
| Sorting.Sort | packages/circus-web-ui/src/pages/case-detail/createCclProcessor.ts:61-75 | the result is a permutation of the input |
| Sorting.SortSorted | packages/circus-web-ui/src/pages/case-detail/createCclProcessor.ts:61-75 | the result is sorted for any total preorder |
| Sorting.SortMap | packages/circus-web-ui/src/pages/case-detail/createCclProcessor.ts:61-75 | sorting commutes with an order-preserving map |
| Sorting.SortDistinct | packages/circus-rs-develui/src/store/viewStates.ts:56 | sorting keeps distinct elements distinct |

## Left out

- Floating point: JavaScript numbers are modelled as exact `int` or `real`. NaN, infinities, rounding error and reads of `undefined` are not modelled.
- The pixel-format table (`PixelFormat.ts`) is not part of this model. The formats are little-endian UInt8, Int8, UInt16 and Int16, plus Binary at 1/8 byte per voxel, most significant bit first. The unknown format is excluded by a precondition, because its accessors are unseen.
- RawVolume.Interpolate: requires every axis to have at least two voxels, because on a one-voxel axis the source reads index -1.
- The trivial getters `getPixelFormat`, `getPixelFormatInfo` and `getVoxelDimension` are left out, since they only return fields.
- The `MultiRange` of loaded slices is modelled as a set of integers.
- Volumes.RawData.OrthogonalMpr: returns a value rather than a Promise, and requires the target slice to be inside the volume, so out-of-range reads are not modelled.
- Volumes.RawData.FillCuboid: requires the box to lie inside the volume, which the source does not check. It also requires the dimension to be set; the source would throw a TypeError.
- Volumes.RawData.GetPixelAt: requires the dimension to be set and the point to lie inside the volume. The source throws a TypeError without a dimension and reads past the slice for other points.
- Volumes.RawData.WritePixelAt: requires the dimension to be set and the point to lie inside the volume. The source throws a TypeError without a dimension and writes past the slice for other points.
- Volumes.RawData.ScanObliqueSectionInMillimeter: requires every voxel-size component to be non-zero, where the source would divide by zero into infinities.
- Volumes.RawData.Copy: requires the source box to lie within the source. It also requires distinct objects to have distinct buffers, so aliasing is not modelled.
- Volumes.RawData.Convert: the mapper is a function from integers to integers.
- Volumes.RawData.ScanOblique: the output is an `array<int>`, so the wrap of a caller's typed array is not modelled. The buffer must be large enough.
- Volumes.RawData.ScanObliqueSection: an output size of 0, where the source divides by zero, is not modelled. The step is then never taken.
- SeriesExport.Validate: PHP `intval` saturation at the integer limits is not modelled. `explode` into more than two `-` pieces uses the first two, as `list($a, $b)` does.
- Log output, `localStorage` load and save, and id generation are left out. New ids and temporary keys are parameters.
- `replace` with a string pattern expands `$$`, `$&`, `` $` `` and `$'` in the series id, and the model does the same. DICOM series UIDs are digits and dots, so for them the result is the id itself (`Configuration.PlaceholderReplaced`).
- Sorting compares UTF-16 code units, as the default `Array.prototype.sort` does. Strings are sequences of Unicode scalar values, so lone surrogates cannot occur in the model.
- `window.location` is not modelled. Its protocol, host name and port are parameters of `Configuration.LabelHost`.
- `isValidPartialVolumeDescriptor` is a parameter. The HTTP client of `RsVolumeLoader` is left out.
- Reference identity of immer drafts (`!==`) is modelled as value inequality.
- The memoisation of `createNamedStateSelector` and the `selectViewState` wrapper are left out.
- `prompt` and `alert` are not modelled. The name a `prompt` returns is the parameter `newName`, and the `alert` messages become `AddRefusal` values.
- The label attribute validation dispatch, the geometry of `createNewLabelData` and the `onReveal` side effect are left out.
- The event logger is left out.
- Database reads and writes become inputs and returned values: `fetchAccessibleSeries`, the insert and `modifyOne` calls, and `generateUniqueId`. `Cases.PostRevision` returns the updated revision list. `Cases.CollectDomains` keeps first-occurrence order for every key. `Object.keys` would list integer-like keys first, in ascending order; this is not modelled.
- React rendering is left out. JavaScript's loose `==` between choice values is modelled by `LooseEquals`.
- Text-to-number conversion in `LooseEquals` covers only plain integer texts.

## Findings

| source | as written | input that shows it | evidently intended | confidence | as-written member | corrected member |
|---|---|---|---|---|---|---|
| packages/circus-ui-kit/src/cs/displays/Choice.tsx:156 | the drop-down passes `ev.target.value`, which is option text, to `onSelect`, and the validity check only accepts number values | any button list and any option chosen from the drop-down | the chosen button's value is reported, as the toggle buttons do | not executed | Choice.DropdownSelection, Choice.DropdownNeverValid | Choice.DropdownSelectionCorrected, Choice.DropdownCorrectedValid |
