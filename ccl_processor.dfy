/** The post-processing that the case-detail page applies to a 3-D connected
    component labelling before it turns the components into labels: naming
    the components by size, renumbering them from the largest down, and
    folding every component past `maximumCcNum` into a single "rest" component
    whose bounding box covers them all and whose volume is their sum. The
    labelling itself (6- or 26-neighbourhood) is an input of the model. */
module CclProcessor {
  import opened Wrappers
  import opened Strings
  import opened Sorting
  import opened RawVolume
  import opened RegionWrites

  // ---------------------------------------------------------------------------
  // Data

  /** One component: its inclusive bounding box (`min`, `max`, indexed by axis
      0..2) and its voxel count. */
  datatype LabelInfo = LabelInfo(min: seq<int>, max: seq<int>, volume: int)

  /** The labelling: one byte per voxel (0 is background, `k` is component `k`),
      the number of components and one entry per label, background first. */
  datatype Labeling = Labeling(labelMap: seq<int>, labelNum: int, labels: seq<LabelInfo>)

  datatype CclOutput = CclOutput(labelingResults: Labeling, names: seq<string>)

  predicate Triple(l: LabelInfo)
  {
    |l.min| == 3 && |l.max| == 3
  }

  predicate InLabelBox(l: LabelInfo, x: int, y: int, z: int)
  {
    Triple(l) && l.min[0] <= x <= l.max[0] && l.min[1] <= y <= l.max[1] && l.min[2] <= z <= l.max[2]
  }

  /** The bounding box lies inside a volume of dimension `d`. */
  predicate BoxInVolume(l: LabelInfo, d: Coord)
  {
    Triple(l) && 0 <= l.min[0] && l.max[0] < d.x && 0 <= l.min[1] && l.max[1] < d.y
    && 0 <= l.min[2] && l.max[2] < d.z
  }

  predicate ByteMap(m: seq<int>)
  {
    forall i :: 0 <= i < |m| ==> 0 <= m[i] < 256
  }

  /** What the labelling hands over for a volume of dimension `d`. */
  predicate WellFormed(c: Labeling, d: Coord)
  {
    d.x > 0 && d.y > 0 && d.z > 0 && |c.labelMap| == VoxelCount(d) && ByteMap(c.labelMap)
    && c.labelNum >= 0 && |c.labels| == c.labelNum + 1
    && forall k :: 1 <= k < |c.labels| ==> BoxInVolume(c.labels[k], d)
  }

  // ---------------------------------------------------------------------------
  // Names of the components

  const OrdinalNames: seq<string> := [
    "the largest CC", "the 2nd largest CC", "the 3rd largest CC", "the 4th largest CC",
    "the 5th largest CC", "the 6th largest CC", "the 7th largest CC", "the 8th largest CC",
    "the 9th largest CC", "the 10th largest CC", "the 11th largest CC"]

  function RestName(labelNum: int, maximumCcNum: int): string
  {
    "the rest (" + IntToString(labelNum - maximumCcNum) + ") CCs"
  }

  /** `slice(0, n)` of an array, which clamps `n` to its length. */
  function Prefix<T>(s: seq<T>, n: nat): (r: seq<T>)
    ensures |r| == if n <= |s| then n else |s|
    ensures r <= s
  {
    if n <= |s| then s[..n] else s
  }

  /** The names of the components after processing, the largest first. */
  function Names(labelNum: nat, maximumCcNum: nat): seq<string>
  {
    var table := OrdinalNames + [RestName(labelNum, maximumCcNum)];
    if labelNum <= maximumCcNum + 1 then Prefix(table, labelNum)
    else Prefix(table, maximumCcNum) + [table[11]]
  }

  /** When nothing is merged, each component keeps its ordinal name. */
  lemma NamesPositional(labelNum: nat, maximumCcNum: nat)
    requires labelNum <= maximumCcNum + 1 && labelNum <= |OrdinalNames|
    ensures Names(labelNum, maximumCcNum) == OrdinalNames[..labelNum]
  {
    var table := OrdinalNames + [RestName(labelNum, maximumCcNum)];
    assert table[..labelNum] == OrdinalNames[..labelNum];
  }

  /** With more components than kept, the kept ones have ordinal names and
      one more name counts the rest. */
  lemma NamesMerged(labelNum: nat, maximumCcNum: nat)
    requires maximumCcNum + 1 < labelNum && maximumCcNum <= |OrdinalNames|
    ensures var r := Names(labelNum, maximumCcNum);
      |r| == maximumCcNum + 1 && r[..maximumCcNum] == OrdinalNames[..maximumCcNum]
      && r[maximumCcNum] == RestName(labelNum, maximumCcNum)
  {
    var table := OrdinalNames + [RestName(labelNum, maximumCcNum)];
    var r := Names(labelNum, maximumCcNum);
    assert r == table[..maximumCcNum] + [table[11]];
    assert r[..maximumCcNum] == table[..maximumCcNum];
    assert table[..maximumCcNum] == OrdinalNames[..maximumCcNum];
  }

  /** There are never more names than components, and never more than the
      twelve entries of the table plus the repeated rest name. */
  lemma NamesBounded(labelNum: nat, maximumCcNum: nat)
    ensures |Names(labelNum, maximumCcNum)| <= labelNum
    ensures |Names(labelNum, maximumCcNum)| <= 13
  {
  }

  // ---------------------------------------------------------------------------
  // Ordering the components by volume

  function Range(n: nat): (r: seq<int>)
    ensures |r| == n && forall i :: 0 <= i < n ==> r[i] == i
  {
    seq(n, i => i)
  }

  function VolumeAt(labels: seq<LabelInfo>, i: int): int
  {
    if 0 <= i < |labels| then labels[i].volume else 0
  }

  /** The comparator `labels[b].volume - labels[a].volume <= 0` over indices. */
  function ByIndexedVolume(labels: seq<LabelInfo>): (int, int) -> bool
  {
    (a: int, b: int) => VolumeAt(labels, a) >= VolumeAt(labels, b)
  }

  /** The comparator `b.volume - a.volume <= 0` over components. */
  function ByVolume(): (LabelInfo, LabelInfo) -> bool
  {
    (a: LabelInfo, b: LabelInfo) => a.volume >= b.volume
  }

  /** `order`: the component indices sorted stably by decreasing volume. */
  function VolumeOrder(labels: seq<LabelInfo>): seq<int>
  {
    Sort(Range(|labels|), ByIndexedVolume(labels))
  }

  predicate IsPermutationOfRange(order: seq<int>)
  {
    Distinct(order) && (forall i :: 0 <= i < |order| ==> 0 <= order[i] < |order|)
    && forall j :: 0 <= j < |order| ==> j in order
  }

  lemma RangeDistinct(n: nat)
    ensures Distinct(Range(n))
  {
  }

  /** The order lists every component exactly once, the largest first. */
  lemma VolumeOrderPermutes(labels: seq<LabelInfo>)
    ensures |VolumeOrder(labels)| == |labels|
    ensures IsPermutationOfRange(VolumeOrder(labels))
    ensures forall i, j :: 0 <= i < j < |labels| ==>
      VolumeAt(labels, VolumeOrder(labels)[i]) >= VolumeAt(labels, VolumeOrder(labels)[j])
  {
    var n := |labels|;
    var order := VolumeOrder(labels);
    RangeDistinct(n);
    SortDistinct(Range(n), ByIndexedVolume(labels));
    forall i | 0 <= i < |order|
      ensures 0 <= order[i] < n
    {
      assert order[i] in multiset(order);
      assert order[i] in Range(n);
    }
    forall j | 0 <= j < n
      ensures j in order
    {
      assert Range(n)[j] == j;
      assert j in multiset(Range(n));
    }
    SortSorted(Range(n), ByIndexedVolume(labels));
  }

  /** Sorting the components themselves yields them in the order of `order`. */
  lemma SortedLabelsFollowOrder(labels: seq<LabelInfo>)
    ensures var order := VolumeOrder(labels);
      |Sort(labels, ByVolume())| == |labels|
      && forall k :: 0 <= k < |labels| ==> 0 <= order[k] < |labels| && Sort(labels, ByVolume())[k] == labels[order[k]]
  {
    var n := |labels|;
    var at := (i: int) => if 0 <= i < n then labels[i] else LabelInfo([], [], 0);
    assert MapSeq(at, Range(n)) == labels;
    SortMap(at, Range(n), ByIndexedVolume(labels), ByVolume());
    VolumeOrderPermutes(labels);
  }

  /** Sorting keeps every component, so their shapes are kept as well. */
  lemma SortedLabelsInVolume(labels: seq<LabelInfo>, d: Coord)
    requires forall k :: 0 <= k < |labels| ==> BoxInVolume(labels[k], d)
    ensures forall k :: 0 <= k < |labels| ==> BoxInVolume(Sort(labels, ByVolume())[k], d)
  {
    var s := Sort(labels, ByVolume());
    forall k | 0 <= k < |s|
      ensures BoxInVolume(s[k], d)
    {
      assert s[k] in multiset(s);
      assert s[k] in labels;
    }
  }

  // ---------------------------------------------------------------------------
  // Renumbering

  /** `relabel`: component `j` gets the number one past its rank in `order`. */
  function RelabelTable(order: seq<int>): (r: seq<int>)
    ensures |r| == |order|
  {
    seq(|order|, j => PositionOf(order, j) + 1)
  }

  lemma RelabelTableInverts(order: seq<int>)
    requires IsPermutationOfRange(order)
    ensures forall i :: 0 <= i < |order| ==> RelabelTable(order)[order[i]] == i + 1
  {
    forall i | 0 <= i < |order|
      ensures PositionOf(order, order[i]) == i
    {
      assert PositionOf(order, order[i]) <= i;
    }
  }

  /** `relabel` undoes `order`: the entry of every component points back at it. */
  lemma RelabelTableUndoes(order: seq<int>)
    requires IsPermutationOfRange(order)
    ensures forall j :: 0 <= j < |order| ==>
      1 <= RelabelTable(order)[j] <= |order| && order[RelabelTable(order)[j] - 1] == j
  {
    forall j | 0 <= j < |order|
      ensures PositionOf(order, j) < |order|
    {
      assert j in order;
    }
  }

  /** The renumbering is a bijection onto 1..n that ranks larger components
      first. */
  lemma RelabelRanks(labels: seq<LabelInfo>)
    ensures var order := VolumeOrder(labels); var relabel := RelabelTable(order);
      |relabel| == |labels|
      && (forall j :: 0 <= j < |labels| ==> 1 <= relabel[j] <= |labels|)
      && (forall j1, j2 :: 0 <= j1 < |labels| && 0 <= j2 < |labels| && j1 != j2 ==> relabel[j1] != relabel[j2])
      && (forall j1, j2 :: 0 <= j1 < |labels| && 0 <= j2 < |labels| && labels[j1].volume > labels[j2].volume
            ==> relabel[j1] < relabel[j2])
  {
    VolumeOrderPermutes(labels);
    RanksOfOrder(labels, VolumeOrder(labels));
  }

  /** The renumbering of any order that lists every component once, larger
      components first. */
  lemma RanksOfOrder(labels: seq<LabelInfo>, order: seq<int>)
    requires |order| == |labels| && IsPermutationOfRange(order)
    requires forall i, j :: 0 <= i < j < |labels| ==> VolumeAt(labels, order[i]) >= VolumeAt(labels, order[j])
    ensures var relabel := RelabelTable(order);
      |relabel| == |labels|
      && (forall j :: 0 <= j < |labels| ==> 1 <= relabel[j] <= |labels|)
      && (forall j1, j2 :: 0 <= j1 < |labels| && 0 <= j2 < |labels| && j1 != j2 ==> relabel[j1] != relabel[j2])
      && (forall j1, j2 :: 0 <= j1 < |labels| && 0 <= j2 < |labels| && labels[j1].volume > labels[j2].volume
            ==> relabel[j1] < relabel[j2])
  {
    RelabelTableUndoes(order);
    RanksMonotone(labels, order);
  }

  lemma RanksMonotone(labels: seq<LabelInfo>, order: seq<int>)
    requires |order| == |labels| && IsPermutationOfRange(order)
    requires forall i, j :: 0 <= i < j < |labels| ==> VolumeAt(labels, order[i]) >= VolumeAt(labels, order[j])
    ensures forall j1, j2 :: 0 <= j1 < |labels| && 0 <= j2 < |labels| && labels[j1].volume > labels[j2].volume ==>
      RelabelTable(order)[j1] < RelabelTable(order)[j2]
  {
    var relabel := RelabelTable(order);
    var n := |labels|;
    RelabelTableUndoes(order);
    forall j1, j2 | 0 <= j1 < n && 0 <= j2 < n && labels[j1].volume > labels[j2].volume
      ensures relabel[j1] < relabel[j2]
    {
      var i1, i2 := relabel[j1] - 1, relabel[j2] - 1;
      assert VolumeAt(labels, order[i1]) > VolumeAt(labels, order[i2]);
    }
  }

  /** The loop that fills `relabel` from `order`. */
  method BuildRelabel(order: seq<int>) returns (relabel: array<int>)
    requires IsPermutationOfRange(order)
    ensures fresh(relabel) && relabel[..] == RelabelTable(order)
  {
    var n := |order|;
    relabel := new int[n];
    var i := 0;
    while i < n
      invariant 0 <= i <= n
      invariant forall k :: 0 <= k < i ==> relabel[order[k]] == k + 1
    {
      relabel[order[i]] := i + 1;
      i := i + 1;
    }
    RelabelTableInverts(order);
    forall j | 0 <= j < n
      ensures relabel[j] == RelabelTable(order)[j]
    {
      var p := PositionOf(order, j);
      assert j in order;
      assert p < n && order[p] == j;
    }
  }

  /** One voxel of the renumbered map: background stays 0, component `v` takes
      `relabel[v - 1]` stored as a byte, and a number without an entry reads
      as `undefined`, which a byte array stores as 0. */
  function Relabelled(v: int, relabel: seq<int>): int
  {
    if v == 0 then 0 else if 1 <= v <= |relabel| then relabel[v - 1] % 256 else 0
  }

  function RelabelMap(labelMap: seq<int>, relabel: seq<int>): (r: seq<int>)
    ensures |r| == |labelMap| && ByteMap(r)
  {
    seq(|labelMap|, i requires 0 <= i < |labelMap| => Relabelled(labelMap[i], relabel))
  }

  /** With fewer than 256 components the new map is the old one with every
      component number replaced by its rank, the background kept. */
  lemma RelabelMapRanks(labelMap: seq<int>, labels: seq<LabelInfo>)
    requires |labels| < 256
    ensures var relabel := RelabelTable(VolumeOrder(labels)); var r := RelabelMap(labelMap, relabel);
      forall i :: 0 <= i < |labelMap| ==>
        (r[i] == 0 <==> labelMap[i] == 0 || labelMap[i] < 0 || labelMap[i] > |labels|)
        && (1 <= labelMap[i] <= |labels| ==> r[i] == relabel[labelMap[i] - 1])
  {
    RelabelRanks(labels);
  }

  // ---------------------------------------------------------------------------
  // Merging the tail into one component

  /** The voxel of a label map at (x, y, z). */
  function MapAt(d: Coord, m: seq<int>, x: int, y: int, z: int): int
    requires |m| == VoxelCount(d) && InVolume(d, x, y, z)
  {
    IndexInRange(d, x, y, z);
    m[Index(d, x, y, z)]
  }

  /** `pos = i + j * width + k * width * height` is the volume's voxel index. */
  lemma PositionIsIndex(d: Coord, i: int, j: int, k: int)
    ensures i + j * d.x + k * d.x * d.y == Index(d, i, j, k)
  {
    assert (j + k * d.y) * d.x == j * d.x + k * d.x * d.y;
  }

  /** `target` grown to cover `source`: per axis the smaller minimum and the
      larger maximum, and the volumes added. */
  function Widen(target: LabelInfo, source: LabelInfo): (r: LabelInfo)
    requires Triple(target) && Triple(source)
    ensures Triple(r) && r.volume == target.volume + source.volume
    ensures forall i :: 0 <= i < 3 ==>
      r.min[i] <= target.min[i] && r.min[i] <= source.min[i] && (r.min[i] == target.min[i] || r.min[i] == source.min[i])
      && r.max[i] >= target.max[i] && r.max[i] >= source.max[i] && (r.max[i] == target.max[i] || r.max[i] == source.max[i])
  {
    LabelInfo(
      seq(3, i requires 0 <= i < 3 => if source.min[i] < target.min[i] then source.min[i] else target.min[i]),
      seq(3, i requires 0 <= i < 3 => if target.max[i] < source.max[i] then source.max[i] else target.max[i]),
      target.volume + source.volume)
  }

  predicate AllTriple(labels: seq<LabelInfo>)
  {
    forall k :: 0 <= k < |labels| ==> Triple(labels[k])
  }

  /** Component `keep` after components `keep + 1 .. upto - 1` were folded in. */
  function Gathered(labels: seq<LabelInfo>, keep: nat, upto: nat): (r: LabelInfo)
    requires keep < upto <= |labels| && AllTriple(labels)
    ensures Triple(r)
    decreases upto
  {
    if upto == keep + 1 then labels[keep] else Widen(Gathered(labels, keep, upto - 1), labels[upto - 1])
  }

  function VolumeSum(labels: seq<LabelInfo>, lo: nat, hi: nat): int
    requires lo <= hi <= |labels|
    decreases hi
  {
    if hi == lo then 0 else VolumeSum(labels, lo, hi - 1) + labels[hi - 1].volume
  }

  /** The gathered component has the total volume of the components folded into it. */
  lemma {:induction false} GatheredVolume(labels: seq<LabelInfo>, keep: nat, upto: nat)
    requires keep < upto <= |labels| && AllTriple(labels)
    ensures Gathered(labels, keep, upto).volume == VolumeSum(labels, keep, upto)
    decreases upto
  {
    if upto > keep + 1 {
      GatheredVolume(labels, keep, upto - 1);
    }
  }

  /** The gathered component's box covers every box folded into it. */
  lemma {:induction false} GatheredCovers(labels: seq<LabelInfo>, keep: nat, upto: nat)
    requires keep < upto <= |labels| && AllTriple(labels)
    ensures forall m, x, y, z :: keep <= m < upto && InLabelBox(labels[m], x, y, z) ==>
      InLabelBox(Gathered(labels, keep, upto), x, y, z)
    decreases upto
  {
    if upto > keep + 1 {
      GatheredCovers(labels, keep, upto - 1);
      var g := Gathered(labels, keep, upto);
      assert g == Widen(Gathered(labels, keep, upto - 1), labels[upto - 1]);
      forall m, x, y, z | keep <= m < upto && InLabelBox(labels[m], x, y, z)
        ensures InLabelBox(g, x, y, z)
      {
        if m < upto - 1 {
          assert InLabelBox(Gathered(labels, keep, upto - 1), x, y, z);
        }
      }
    }
  }

  /** The gathered box is no larger than needed: each of its bounds is a bound
      of one of the folded boxes. */
  lemma {:induction false} GatheredTight(labels: seq<LabelInfo>, keep: nat, upto: nat)
    requires keep < upto <= |labels| && AllTriple(labels)
    ensures forall i :: 0 <= i < 3 ==>
      (exists m :: keep <= m < upto && Gathered(labels, keep, upto).min[i] == labels[m].min[i])
      && (exists m :: keep <= m < upto && Gathered(labels, keep, upto).max[i] == labels[m].max[i])
    decreases upto
  {
    if upto > keep + 1 {
      GatheredTight(labels, keep, upto - 1);
      var g := Gathered(labels, keep, upto);
      assert g == Widen(Gathered(labels, keep, upto - 1), labels[upto - 1]);
      forall i | 0 <= i < 3
        ensures (exists m :: keep <= m < upto && g.min[i] == labels[m].min[i])
          && (exists m :: keep <= m < upto && g.max[i] == labels[m].max[i])
      {
        if g.min[i] == labels[upto - 1].min[i] {
          assert keep <= upto - 1 < upto;
        }
        if g.max[i] == labels[upto - 1].max[i] {
          assert keep <= upto - 1 < upto;
        }
      }
    } else {
      assert Gathered(labels, keep, upto) == labels[keep];
    }
  }

  lemma GatheredStep(labels: seq<LabelInfo>, keep: nat, upto: nat)
    requires keep + 1 < upto <= |labels| && AllTriple(labels)
    ensures Gathered(labels, keep, upto) == Widen(Gathered(labels, keep, upto - 1), labels[upto - 1])
  {
  }

  /** The components after the fold: entry `keep` replaced by the gathered one. */
  function Merged(labels: seq<LabelInfo>, keep: nat): (r: seq<LabelInfo>)
    requires AllTriple(labels)
    ensures |r| == |labels|
  {
    if keep < |labels| then labels[keep := Gathered(labels, keep, |labels|)] else labels
  }

  /** The folded map value at (x, y, z): a component numbered `keep + 2 .. upto`
      whose box holds the voxel becomes `keep + 1` (stored as a byte). */
  function MergedValue(v: int, labels: seq<LabelInfo>, keep: nat, upto: int, x: int, y: int, z: int): int
  {
    if keep + 2 <= v <= upto && v - 1 < |labels| && InLabelBox(labels[v - 1], x, y, z) then (keep + 1) % 256 else v
  }

  /** `now` is `prior` with the components numbered `keep + 2 .. upto` folded. */
  ghost predicate MapMerged(d: Coord, prior: seq<int>, now: seq<int>, labels: seq<LabelInfo>, keep: nat, upto: int)
  {
    |prior| == VoxelCount(d) && |now| == VoxelCount(d)
    && forall x, y, z :: InVolume(d, x, y, z) ==>
      MapAt(d, now, x, y, z) == MergedValue(MapAt(d, prior, x, y, z), labels, keep, upto, x, y, z)
  }

  /** `now` is `prior` with the voxels of `l`'s box before the cursor that held
      `from` set to `to`. */
  ghost predicate Recoloured(d: Coord, prior: seq<int>, now: seq<int>, l: LabelInfo, from: int, to: int,
                             cx: int, cy: int, cz: int)
  {
    |prior| == VoxelCount(d) && |now| == VoxelCount(d)
    && forall x, y, z :: InVolume(d, x, y, z) ==>
      MapAt(d, now, x, y, z)
      == if InLabelBox(l, x, y, z) && Before(x, y, z, cx, cy, cz) && MapAt(d, prior, x, y, z) == from
         then to else MapAt(d, prior, x, y, z)
  }

  lemma RecolourStep(d: Coord, prior: seq<int>, now: seq<int>, l: LabelInfo, from: int, to: int,
                     cx: int, cy: int, cz: int)
    requires Recoloured(d, prior, now, l, from, to, cx, cy, cz)
    requires InLabelBox(l, cx, cy, cz) && InVolume(d, cx, cy, cz)
    ensures 0 <= Index(d, cx, cy, cz) < |now|
    ensures Recoloured(d, prior, if now[Index(d, cx, cy, cz)] == from then now[Index(d, cx, cy, cz) := to] else now,
                       l, from, to, cx + 1, cy, cz)
  {
    IndexInRange(d, cx, cy, cz);
    var p := Index(d, cx, cy, cz);
    var next := if now[p] == from then now[p := to] else now;
    forall x, y, z | InVolume(d, x, y, z)
      ensures MapAt(d, next, x, y, z)
        == if InLabelBox(l, x, y, z) && Before(x, y, z, cx + 1, cy, cz) && MapAt(d, prior, x, y, z) == from
           then to else MapAt(d, prior, x, y, z)
    {
      IndexInRange(d, x, y, z);
      if Index(d, x, y, z) == p {
        IndexInjective(d, x, y, z, cx, cy, cz);
      } else {
        assert next[Index(d, x, y, z)] == now[Index(d, x, y, z)];
      }
    }
  }

  lemma RecolourNextRow(d: Coord, prior: seq<int>, now: seq<int>, l: LabelInfo, from: int, to: int,
                        cx: int, cy: int, cz: int)
    requires Recoloured(d, prior, now, l, from, to, cx, cy, cz)
    requires Triple(l) && cx > l.max[0]
    ensures Recoloured(d, prior, now, l, from, to, l.min[0], cy + 1, cz)
  {
    forall x, y, z | InLabelBox(l, x, y, z)
      ensures Before(x, y, z, cx, cy, cz) == Before(x, y, z, l.min[0], cy + 1, cz)
    {
    }
  }

  lemma RecolourNextPlane(d: Coord, prior: seq<int>, now: seq<int>, l: LabelInfo, from: int, to: int,
                          cy: int, cz: int)
    requires Triple(l) && Recoloured(d, prior, now, l, from, to, l.min[0], cy, cz)
    requires cy > l.max[1]
    ensures Recoloured(d, prior, now, l, from, to, l.min[0], l.min[1], cz + 1)
  {
    forall x, y, z | InLabelBox(l, x, y, z)
      ensures Before(x, y, z, l.min[0], cy, cz) == Before(x, y, z, l.min[0], l.min[1], cz + 1)
    {
    }
  }

  /** The three loops over a component's box: every voxel of the box that holds
      `from` is set to `to`, and nothing else changes. */
  method RecolourBox(labelMap: array<int>, d: Coord, l: LabelInfo, from: int, to: int)
    requires labelMap.Length == VoxelCount(d) && BoxInVolume(l, d)
    modifies labelMap
    ensures forall x, y, z :: InVolume(d, x, y, z) ==>
      MapAt(d, labelMap[..], x, y, z)
      == if InLabelBox(l, x, y, z) && MapAt(d, old(labelMap[..]), x, y, z) == from
         then to else MapAt(d, old(labelMap[..]), x, y, z)
  {
    ghost var prior := labelMap[..];
    var width, height := d.x, d.y;
    var k := l.min[2];
    while k <= l.max[2]
      invariant l.min[2] <= k && (k <= l.max[2] + 1 || k == l.min[2])
      invariant Recoloured(d, prior, labelMap[..], l, from, to, l.min[0], l.min[1], k)
    {
      var j := l.min[1];
      while j <= l.max[1]
        invariant l.min[1] <= j && (j <= l.max[1] + 1 || j == l.min[1])
        invariant Recoloured(d, prior, labelMap[..], l, from, to, l.min[0], j, k)
      {
        var i := l.min[0];
        while i <= l.max[0]
          invariant l.min[0] <= i && (i <= l.max[0] + 1 || i == l.min[0])
          invariant Recoloured(d, prior, labelMap[..], l, from, to, i, j, k)
        {
          var pos := i + j * width + k * width * height;
          PositionIsIndex(d, i, j, k);
          RecolourStep(d, prior, labelMap[..], l, from, to, i, j, k);
          if labelMap[pos] == from {
            labelMap[pos] := to;
          }
          i := i + 1;
        }
        RecolourNextRow(d, prior, labelMap[..], l, from, to, i, j, k);
        j := j + 1;
      }
      RecolourNextPlane(d, prior, labelMap[..], l, from, to, j, k);
      k := k + 1;
    }
    forall x, y, z | InVolume(d, x, y, z) && InLabelBox(l, x, y, z)
      ensures Before(x, y, z, l.min[0], l.min[1], k)
    {
    }
  }

  /** The loop over the three axes and the volume update: `labels[keep]` is
      widened by `labels[num]`, and nothing else changes. */
  method Absorb(labels: array<LabelInfo>, keep: nat, num: nat)
    requires keep < num < labels.Length && Triple(labels[keep]) && Triple(labels[num])
    modifies labels
    ensures labels[..] == old(labels[..])[keep := Widen(old(labels[keep]), old(labels[num]))]
  {
    var i := 0;
    ghost var target, source := labels[keep], labels[num];
    ghost var rest := labels[..];
    while i < 3
      invariant 0 <= i <= 3 && labels[num] == source && Triple(labels[keep])
      invariant labels[..] == rest[keep := labels[keep]]
      invariant labels[keep].volume == target.volume
      invariant forall a :: 0 <= a < 3 ==>
        labels[keep].min[a] == (if a < i then Widen(target, source).min[a] else target.min[a])
        && labels[keep].max[a] == (if a < i then Widen(target, source).max[a] else target.max[a])
    {
      if labels[num].min[i] < labels[keep].min[i] {
        labels[keep] := labels[keep].(min := labels[keep].min[i := labels[num].min[i]]);
      }
      if labels[keep].max[i] < labels[num].max[i] {
        labels[keep] := labels[keep].(max := labels[keep].max[i := labels[num].max[i]]);
      }
      i := i + 1;
    }
    labels[keep] := labels[keep].(volume := labels[keep].volume + labels[num].volume);
    assert labels[keep] == Widen(target, source);
  }

  /** One fold step on the map: recolouring component `num + 1` to `keep + 1`
      extends the folded range by one. */
  lemma MergeStep(d: Coord, prior: seq<int>, mid: seq<int>, now: seq<int>, labels: seq<LabelInfo>,
                  keep: nat, num: nat, next: nat, folded: LabelInfo)
    requires keep < num < |labels| && next == num + 1 && MapMerged(d, prior, mid, labels, keep, num)
    requires |now| == VoxelCount(d)
    requires ByteMap(prior) && folded == labels[num]
    requires forall x, y, z :: InVolume(d, x, y, z) ==>
      MapAt(d, now, x, y, z)
      == if InLabelBox(folded, x, y, z) && MapAt(d, mid, x, y, z) == next
         then (keep + 1) % 256 else MapAt(d, mid, x, y, z)
    ensures MapMerged(d, prior, now, labels, keep, next)
  {
    forall x, y, z | InVolume(d, x, y, z)
      ensures MapAt(d, now, x, y, z) == MergedValue(MapAt(d, prior, x, y, z), labels, keep, next, x, y, z)
    {
      var v := MapAt(d, prior, x, y, z);
      IndexInRange(d, x, y, z);
      assert 0 <= v < 256;
      var m := MapAt(d, mid, x, y, z);
      if m == num + 1 && m != v {
        // a voxel already folded holds `keep + 1`, which is below `num + 1`
        assert m == (keep + 1) % 256;
      }
    }
  }

  /** The state of the fold loop before component `num`: component `keep` has
      gathered components `keep + 1 .. num - 1` (when it exists) and the map has
      those components folded. */
  ghost predicate FoldedUpTo(d: Coord, orig: seq<LabelInfo>, prior: seq<int>, now: seq<LabelInfo>, cur: seq<int>,
                             keep: nat, num: nat)
  {
    AllTriple(orig) && keep + 1 <= num
    && (keep < |orig| ==> num <= |orig| && now == orig[keep := Gathered(orig, keep, num)])
    && (keep >= |orig| ==> num == keep + 1 && now == orig)
    && MapMerged(d, prior, cur, orig, keep, num)
  }

  lemma FoldStart(d: Coord, orig: seq<LabelInfo>, prior: seq<int>, keep: nat)
    requires AllTriple(orig) && |prior| == VoxelCount(d)
    ensures FoldedUpTo(d, orig, prior, orig, prior, keep, keep + 1)
  {
    if keep < |orig| {
      assert orig[keep := Gathered(orig, keep, keep + 1)] == orig;
    }
  }

  lemma FoldDone(d: Coord, orig: seq<LabelInfo>, prior: seq<int>, now: seq<LabelInfo>, cur: seq<int>,
                 keep: nat, num: nat)
    requires FoldedUpTo(d, orig, prior, now, cur, keep, num) && num >= |orig|
    ensures now == Merged(orig, keep) && MapMerged(d, prior, cur, orig, keep, |orig|)
  {
    forall x, y, z | InVolume(d, x, y, z)
      ensures MapAt(d, cur, x, y, z) == MergedValue(MapAt(d, prior, x, y, z), orig, keep, |orig|, x, y, z)
    {
      assert MapAt(d, cur, x, y, z) == MergedValue(MapAt(d, prior, x, y, z), orig, keep, num, x, y, z);
    }
  }

  /** The fold loop over components `keep + 1 .. n - 1`: boxes and volumes are
      gathered into component `keep`, and the map's voxels of each folded
      component inside its box are renumbered `keep + 1`. */
  method MergeTail(labels: array<LabelInfo>, labelMap: array<int>, d: Coord, keep: nat)
    requires labels != labelMap as object
    requires AllTriple(labels[..]) && labelMap.Length == VoxelCount(d) && ByteMap(labelMap[..])
    requires forall k :: keep < k < labels.Length ==> BoxInVolume(labels[k], d)
    modifies labels, labelMap
    ensures labels[..] == Merged(old(labels[..]), keep)
    ensures MapMerged(d, old(labelMap[..]), labelMap[..], old(labels[..]), keep, labels.Length)
  {
    ghost var orig, prior := labels[..], labelMap[..];
    var n := labels.Length;
    var num := keep + 1;
    FoldStart(d, orig, prior, keep);
    while num < n
      invariant FoldedUpTo(d, orig, prior, labels[..], labelMap[..], keep, num)
    {
      num := FoldComponent(labels, labelMap, d, keep, num, orig, prior);
    }
    FoldDone(d, orig, prior, labels[..], labelMap[..], keep, num);
  }

  lemma UpdateTwice<T>(s: seq<T>, k: nat, a: T, b: T)
    requires k < |s|
    ensures s[k := a][k := b] == s[k := b]
  {
  }

  /** One round of the fold loop: component `num` is gathered into component
      `keep`, and its voxels inside its box are renumbered `keep + 1`. */
  method FoldComponent(labels: array<LabelInfo>, labelMap: array<int>, d: Coord, keep: nat, num: nat,
                       ghost orig: seq<LabelInfo>, ghost prior: seq<int>) returns (next: nat)
    requires labels != labelMap as object && labels.Length == |orig| && labelMap.Length == VoxelCount(d)
    requires keep < num < |orig| && BoxInVolume(orig[num], d) && ByteMap(prior)
    requires FoldedUpTo(d, orig, prior, labels[..], labelMap[..], keep, num)
    modifies labels, labelMap
    ensures next == num + 1 && FoldedUpTo(d, orig, prior, labels[..], labelMap[..], keep, next)
  {
    next := num + 1;
    assert labels[num] == orig[num];
    ghost var before := labels[..];
    Absorb(labels, keep, num);
    GatheredStep(orig, keep, next);
    assert labels[..] == before[keep := Gathered(orig, keep, next)];
    UpdateTwice(orig, keep, Gathered(orig, keep, num), Gathered(orig, keep, next));
    ghost var mid := labelMap[..];
    var folded := labels[num];
    // the map is a byte array, so the kept number is stored modulo 256
    RecolourBox(labelMap, d, folded, next, (keep + 1) % 256);
    MergeStep(d, prior, mid, labelMap[..], orig, keep, num, next, folded);
  }

  /** Every voxel left with a folded component's number lies outside that
      component's box; inside it the voxel now has the kept number. */
  lemma MergedMapFolds(d: Coord, prior: seq<int>, now: seq<int>, labels: seq<LabelInfo>, keep: nat,
                       x: int, y: int, z: int)
    requires MapMerged(d, prior, now, labels, keep, |labels|) && InVolume(d, x, y, z)
    requires keep + 2 <= MapAt(d, prior, x, y, z) <= |labels|
    requires InLabelBox(labels[MapAt(d, prior, x, y, z) - 1], x, y, z)
    ensures MapAt(d, now, x, y, z) == (keep + 1) % 256
  {
  }

  // ---------------------------------------------------------------------------
  // The processor

  /** The result the processor returns when the labelling throws. */
  function FailedOutput(): (r: CclOutput)
    ensures r.labelingResults.labelNum == 0 && r.names == [""]
  {
    CclOutput(Labeling([], 0, []), [""])
  }

  /** The processor for a labelling outcome (`None` when the labelling threw):
      names from the component count, components sorted by decreasing volume,
      the map renumbered by rank, and the components past `maximumCcNum` folded
      into component `maximumCcNum + 1`. */
  method Process(maximumCcNum: nat, ccl: Option<Labeling>, d: Coord) returns (r: CclOutput)
    requires ccl.Some? ==> WellFormed(ccl.value, d)
    ensures ccl.None? ==> r == FailedOutput()
    ensures ccl.Some? ==>
      var c := ccl.value;
      var shifted := c.labels[1..];
      var sorted := Sort(shifted, ByVolume());
      var renumbered := RelabelMap(c.labelMap, RelabelTable(VolumeOrder(shifted)));
      AllTriple(sorted)
      && r.names == Names(c.labelNum, maximumCcNum)
      && r.labelingResults.labelNum == |r.names|
      && r.labelingResults.labels == Merged(sorted, maximumCcNum)
      && MapMerged(d, renumbered, r.labelingResults.labelMap, sorted, maximumCcNum, c.labelNum)
  {
    if ccl.None? {
      return FailedOutput();
    }
    var c := ccl.value;
    var names := Names(c.labelNum, maximumCcNum);
    var labels, labelMap := Renumber(c, d);
    MergeTail(labels, labelMap, d, maximumCcNum);
    r := CclOutput(Labeling(labelMap[..], |names|, labels[..]), names);
  }

  /** Dropping the background entry, renumbering the map by rank and sorting
      the components by decreasing volume. */
  method Renumber(c: Labeling, d: Coord) returns (labels: array<LabelInfo>, labelMap: array<int>)
    requires WellFormed(c, d)
    ensures fresh(labels) && fresh(labelMap)
    ensures labels[..] == Sort(c.labels[1..], ByVolume())
    ensures labelMap[..] == RelabelMap(c.labelMap, RelabelTable(VolumeOrder(c.labels[1..])))
    ensures labels.Length == c.labelNum && labelMap.Length == VoxelCount(d) && ByteMap(labelMap[..])
    ensures forall k :: 0 <= k < labels.Length ==> BoxInVolume(labels[k], d)
  {
    var shifted := c.labels[1..];
    var order := VolumeOrder(shifted);
    VolumeOrderPermutes(shifted);
    var relabel := BuildRelabel(order);
    var renumbered := RelabelMap(c.labelMap, relabel[..]);
    var sorted := Sort(shifted, ByVolume());
    SortedLabelsInVolume(shifted, d);
    labels := new LabelInfo[|sorted|](k requires 0 <= k < |sorted| => sorted[k]);
    labelMap := new int[|renumbered|](k requires 0 <= k < |renumbered| => renumbered[k]);
    assert labels[..] == sorted;
    assert labelMap[..] == renumbered;
  }
}
