/** The volume-rendering view-state changes that the development UI's VR
    controls dispatch: seven setters of one scalar field each, and the
    sub-volume range setters for the x, y and z axes. A change is a function
    from the current view state to the next one, as the draft-based update
    applies it. */
module VrStateChange {
  import opened Wrappers

  /** The cropped sub-volume: per-axis offset and voxel count. */
  datatype SubVolume = SubVolume(offset: seq<int>, dimension: seq<int>)

  /** The fields of a VR view state that the controls touch; `camera` stands
      for all the rest, which no change touches. */
  datatype VrViewState = VrViewState(
    enableMask: bool,
    highlightedLabelIndex: int,
    debugMode: int,
    transferFunction: seq<real>,
    rayIntensity: real,
    quality: real,
    interpolationMode: string,
    subVolume: Option<SubVolume>,
    camera: seq<real>)

  datatype Field =
    | EnableMask | HighlightedLabelIndex | DebugMode | TransferFunction
    | RayIntensity | Quality | InterpolationMode | SubVolumeField

  /** One dispatched change. `SetSubVolumeRange(axis, ...)` is
      `setSubVolumeRangeX`, `Y` or `Z` for axis 0, 1 or 2. */
  datatype Change =
    | SetEnableMask(mask: bool)
    | SetHighlightedLabelIndex(index: int)
    | SetDebugMode(mode: int)
    | SetTransferFunction(tf: seq<real>)
    | SetRayIntensity(intensity: real)
    | SetQuality(q: real)
    | SetInterpolationMode(m: string)
    | SetSubVolumeRange(axis: nat, offset0: int, offset1: int, voxelCount: Option<seq<int>>)

  function FieldOf(c: Change): Field
  {
    match c
    case SetEnableMask(_) => EnableMask
    case SetHighlightedLabelIndex(_) => HighlightedLabelIndex
    case SetDebugMode(_) => DebugMode
    case SetTransferFunction(_) => TransferFunction
    case SetRayIntensity(_) => RayIntensity
    case SetQuality(_) => Quality
    case SetInterpolationMode(_) => InterpolationMode
    case SetSubVolumeRange(_, _, _, _) => SubVolumeField
  }

  /** `a` and `b` agree on every field except possibly `f`. */
  predicate SameExcept(a: VrViewState, b: VrViewState, f: Field)
  {
    (f == EnableMask || a.enableMask == b.enableMask)
    && (f == HighlightedLabelIndex || a.highlightedLabelIndex == b.highlightedLabelIndex)
    && (f == DebugMode || a.debugMode == b.debugMode)
    && (f == TransferFunction || a.transferFunction == b.transferFunction)
    && (f == RayIntensity || a.rayIntensity == b.rayIntensity)
    && (f == Quality || a.quality == b.quality)
    && (f == InterpolationMode || a.interpolationMode == b.interpolationMode)
    && (f == SubVolumeField || a.subVolume == b.subVolume)
    && a.camera == b.camera
  }

  /** The type guard of the dispatcher, which accepts every state. */
  predicate AsVrViewState(s: VrViewState)
  {
    true
  }

  /** The sub-volume, when there is one, has three axes. */
  predicate WellShaped(s: VrViewState)
  {
    s.subVolume.Some? ==> |s.subVolume.value.offset| == 3 && |s.subVolume.value.dimension| == 3
  }

  /** The axis is one of the three, and a voxel count is a triple. */
  predicate ValidChange(c: Change)
  {
    c.SetSubVolumeRange? ==> c.axis < 3 && (c.voxelCount.Some? ==> |c.voxelCount.value| == 3)
  }

  /** The state after the change. With an existing sub-volume the range setter
      changes that axis's offset and extent in place; without one but with the
      volume's voxel count it builds a new sub-volume spanning the other axes
      entirely; with neither it leaves the state as it is. */
  function Apply(s: VrViewState, c: Change): (r: VrViewState)
    requires WellShaped(s) && ValidChange(c)
    ensures WellShaped(r) && SameExcept(s, r, FieldOf(c))
    ensures c.SetEnableMask? ==> r.enableMask == c.mask
    ensures c.SetHighlightedLabelIndex? ==> r.highlightedLabelIndex == c.index
    ensures c.SetDebugMode? ==> r.debugMode == c.mode
    ensures c.SetTransferFunction? ==> r.transferFunction == c.tf
    ensures c.SetRayIntensity? ==> r.rayIntensity == c.intensity
    ensures c.SetQuality? ==> r.quality == c.q
    ensures c.SetInterpolationMode? ==> r.interpolationMode == c.m
  {
    if !AsVrViewState(s) then s
    else
      match c
      case SetEnableMask(v) => s.(enableMask := v)
      case SetHighlightedLabelIndex(v) => s.(highlightedLabelIndex := v)
      case SetDebugMode(v) => s.(debugMode := v)
      case SetTransferFunction(v) => s.(transferFunction := v)
      case SetRayIntensity(v) => s.(rayIntensity := v)
      case SetQuality(v) => s.(quality := v)
      case SetInterpolationMode(v) => s.(interpolationMode := v)
      case SetSubVolumeRange(axis, o0, o1, vc) =>
        if s.subVolume.Some? then
          var sv := s.subVolume.value;
          s.(subVolume := Some(SubVolume(sv.offset[axis := o0], sv.dimension[axis := o1 - o0])))
        else if vc.Some? then
          s.(subVolume := Some(SubVolume(
            seq(3, i => if i == axis then o0 else 0),
            seq(3, i requires 0 <= i < 3 => if i == axis then o1 - o0 else vc.value[i]))))
        else s
  }

  /** With a sub-volume, the range setter sets that axis only. */
  lemma RangeOnExistingSubVolume(s: VrViewState, axis: nat, o0: int, o1: int, vc: Option<seq<int>>)
    requires WellShaped(s) && ValidChange(SetSubVolumeRange(axis, o0, o1, vc)) && s.subVolume.Some?
    ensures var r := Apply(s, SetSubVolumeRange(axis, o0, o1, vc));
      r.subVolume.Some?
      && r.subVolume.value.offset[axis] == o0 && r.subVolume.value.dimension[axis] == o1 - o0
      && forall i :: 0 <= i < 3 && i != axis ==>
           r.subVolume.value.offset[i] == s.subVolume.value.offset[i]
           && r.subVolume.value.dimension[i] == s.subVolume.value.dimension[i]
  {
  }

  /** Without a sub-volume but with a voxel count, the new sub-volume starts at
      0 and spans the whole volume on the other two axes. */
  lemma RangeCreatesSubVolume(s: VrViewState, axis: nat, o0: int, o1: int, vc: seq<int>)
    requires WellShaped(s) && ValidChange(SetSubVolumeRange(axis, o0, o1, Some(vc))) && s.subVolume.None?
    ensures var r := Apply(s, SetSubVolumeRange(axis, o0, o1, Some(vc)));
      r.subVolume.Some?
      && r.subVolume.value.offset[axis] == o0 && r.subVolume.value.dimension[axis] == o1 - o0
      && forall i :: 0 <= i < 3 && i != axis ==>
           r.subVolume.value.offset[i] == 0 && r.subVolume.value.dimension[i] == vc[i]
  {
  }

  /** Without a sub-volume and without a voxel count, nothing changes. */
  lemma RangeWithoutVoxelCount(s: VrViewState, axis: nat, o0: int, o1: int)
    requires WellShaped(s) && ValidChange(SetSubVolumeRange(axis, o0, o1, None)) && s.subVolume.None?
    ensures Apply(s, SetSubVolumeRange(axis, o0, o1, None)) == s
  {
  }

  /** Dispatching the same change twice is the same as dispatching it once. */
  lemma ApplyIdempotent(s: VrViewState, c: Change)
    requires WellShaped(s) && ValidChange(c)
    ensures Apply(Apply(s, c), c) == Apply(s, c)
  {
    var r := Apply(s, c);
    if c.SetSubVolumeRange? && r.subVolume.Some? {
      var sv := r.subVolume.value;
      assert sv.offset[c.axis := c.offset0] == sv.offset;
      assert sv.dimension[c.axis := c.offset1 - c.offset0] == sv.dimension;
    }
  }

  /** Range changes on two different axes of an existing sub-volume commute. */
  lemma RangesCommute(s: VrViewState, a: Change, b: Change)
    requires WellShaped(s) && s.subVolume.Some?
    requires ValidChange(a) && ValidChange(b) && a.SetSubVolumeRange? && b.SetSubVolumeRange? && a.axis != b.axis
    ensures Apply(Apply(s, a), b) == Apply(Apply(s, b), a)
  {
    var sv := s.subVolume.value;
    assert sv.offset[a.axis := a.offset0][b.axis := b.offset0] == sv.offset[b.axis := b.offset0][a.axis := a.offset0];
    assert sv.dimension[a.axis := a.offset1 - a.offset0][b.axis := b.offset1 - b.offset0]
      == sv.dimension[b.axis := b.offset1 - b.offset0][a.axis := a.offset1 - a.offset0];
  }
}
