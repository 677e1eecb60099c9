/** The label menu of the case viewer: the commands on the active label of
    the active series (rename, remove, convert the type, reveal, hide all
    labels), the appearance editor, and adding a new label with a name no
    other label of the series has. */
module LabelMenu {
  import opened Wrappers
  import opened Strings

  datatype LabelType = Voxel | Ellipsoid | Cuboid | Ellipse | Rectangle | Point | Ruler

  datatype Orientation = Axial | Sagittal | Coronal | Oblique

  /** A label; its geometry is not modelled. */
  datatype Label = Label(temporaryKey: string, name: string, labelType: LabelType, color: string, alpha: real, hidden: bool)

  /** The parts of the editing data the menu reads and writes. */
  datatype EditingData = EditingData(
    seriesLabels: seq<seq<Label>>,
    activeSeriesIndex: nat,
    activeLabelIndex: int,
    allLabelsHidden: bool)

  datatype Command = Rename | Remove | ConvertType | Reveal | ToggleHideAllLabels

  /** The active series exists. */
  predicate Valid(d: EditingData)
  {
    d.activeSeriesIndex < |d.seriesLabels|
  }

  function Labels(d: EditingData): seq<Label>
    requires Valid(d)
  {
    d.seriesLabels[d.activeSeriesIndex]
  }

  /** `activeLabel`: the label at a non-negative index, or nothing (`null`, or
      `undefined` past the end). */
  function ActiveLabel(d: EditingData): (r: Option<Label>)
    requires Valid(d)
    ensures r.Some? <==> 0 <= d.activeLabelIndex < |Labels(d)|
  {
    if 0 <= d.activeLabelIndex < |Labels(d)| then Some(Labels(d)[d.activeLabelIndex]) else None
  }

  /** The active index points at a label, or is -1. */
  predicate ActiveIndexSound(d: EditingData)
    requires Valid(d)
  {
    d.activeLabelIndex == -1 || 0 <= d.activeLabelIndex < |Labels(d)|
  }

  /** The editing data with the active series' labels replaced. */
  function WithLabels(d: EditingData, labels: seq<Label>): (r: EditingData)
    requires Valid(d)
    ensures Valid(r) && Labels(r) == labels
  {
    d.(seriesLabels := d.seriesLabels[d.activeSeriesIndex := labels])
  }

  /** The labels of every other series are those of `d`. */
  predicate OtherSeriesKept(d: EditingData, r: EditingData)
    requires Valid(d)
  {
    |r.seriesLabels| == |d.seriesLabels|
    && forall i :: 0 <= i < |d.seriesLabels| && i != d.activeSeriesIndex ==> r.seriesLabels[i] == d.seriesLabels[i]
  }

  /** JavaScript's `splice(start, 1)`: a negative start counts from the end,
      and a start past the end removes nothing. */
  function Splice1(s: seq<Label>, start: int): (r: seq<Label>)
    ensures 0 <= start < |s| ==> r == s[..start] + s[start + 1..]
    ensures start >= |s| ==> r == s
  {
    var at := if start < 0 then (if |s| + start < 0 then 0 else |s| + start) else start;
    if at < |s| then s[..at] + s[at + 1..] else s
  }

  // ---------------------------------------------------------------------------
  // handleCommand, one function per command

  /** `rename` with the name the prompt returned (`None` when cancelled). */
  function RenameLabel(d: EditingData, newName: Option<string>): (r: EditingData)
    requires Valid(d)
    ensures Valid(r)
  {
    match ActiveLabel(d)
    case None => d
    case Some(current) =>
      if newName.None? || current.name == newName.value then d
      else WithLabels(d, Labels(d)[d.activeLabelIndex := current.(name := newName.value)])
  }

  /** `remove`: the label at the active index is spliced out; the index
      becomes -1 when no label is left and the last position when it is past
      the end. */
  function RemoveLabel(d: EditingData): (r: EditingData)
    requires Valid(d)
    ensures Valid(r) && Labels(r) == Splice1(Labels(d), d.activeLabelIndex)
  {
    var labels := Splice1(Labels(d), d.activeLabelIndex);
    var d1 := WithLabels(d, labels);
    if |labels| == 0 then d1.(activeLabelIndex := -1)
    else if d.activeLabelIndex >= |labels| then d1.(activeLabelIndex := |labels| - 1)
    else d1
  }

  /** `convertType`: the active label becomes `canConvertTo` of its type, when
      that is defined. */
  function ConvertLabelType(d: EditingData, canConvertTo: LabelType -> Option<LabelType>): (r: EditingData)
    requires Valid(d)
    ensures Valid(r)
  {
    match ActiveLabel(d)
    case None => d
    case Some(current) =>
      match canConvertTo(current.labelType)
      case None => d
      case Some(t) => WithLabels(d, Labels(d)[d.activeLabelIndex := current.(labelType := t)])
  }

  /** The outcome of a command: the new editing data, and whether the viewer
      was asked to reveal the active label. */
  datatype CommandResult = CommandResult(data: EditingData, revealed: bool)

  /** `handleCommand`: nothing at all while the menu is disabled. */
  function HandleCommand(d: EditingData, disabled: bool, command: Command, newName: Option<string>,
                         canConvertTo: LabelType -> Option<LabelType>): (r: CommandResult)
    requires Valid(d)
    ensures Valid(r.data)
  {
    if disabled then CommandResult(d, false)
    else
      match command
      case Rename => CommandResult(RenameLabel(d, newName), false)
      case Remove => CommandResult(RemoveLabel(d), false)
      case ConvertType => CommandResult(ConvertLabelType(d, canConvertTo), false)
      case Reveal => CommandResult(d, ActiveLabel(d).Some?)
      case ToggleHideAllLabels => CommandResult(d.(allLabelsHidden := !d.allLabelsHidden), false)
  }

  /** A disabled menu changes nothing and reveals nothing. */
  lemma DisabledIsNoOp(d: EditingData, command: Command, newName: Option<string>,
                       canConvertTo: LabelType -> Option<LabelType>)
    requires Valid(d)
    ensures HandleCommand(d, true, command, newName, canConvertTo) == CommandResult(d, false)
  {
  }

  /** Renaming renames the active label only, and is a no-op when cancelled or
      when the name is unchanged. */
  lemma RenameChangesOneName(d: EditingData, newName: Option<string>)
    requires Valid(d)
    ensures newName.None? ==> RenameLabel(d, newName) == d
    ensures ActiveLabel(d).Some? && newName.Some? && ActiveLabel(d).value.name == newName.value ==> RenameLabel(d, newName) == d
    ensures var r := RenameLabel(d, newName);
      OtherSeriesKept(d, r) && r.activeLabelIndex == d.activeLabelIndex && r.allLabelsHidden == d.allLabelsHidden
      && |Labels(r)| == |Labels(d)|
      && (forall i :: 0 <= i < |Labels(d)| && i != d.activeLabelIndex ==> Labels(r)[i] == Labels(d)[i])
      && (ActiveLabel(d).Some? && newName.Some? ==>
            Labels(r)[d.activeLabelIndex] == ActiveLabel(d).value.(name := newName.value))
  {
  }

  /** Removing the active label keeps the others in order and leaves the index
      sound: -1 for an empty list, the new last position when the removed
      label was last, and the same position otherwise. */
  lemma RemoveKeepsIndexSound(d: EditingData)
    requires Valid(d) && ActiveLabel(d).Some?
    ensures var r := RemoveLabel(d);
      var k := d.activeLabelIndex;
      ActiveIndexSound(r) && OtherSeriesKept(d, r) && r.allLabelsHidden == d.allLabelsHidden
      && Labels(r) == Labels(d)[..k] + Labels(d)[k + 1..]
      && (|Labels(d)| == 1 ==> r.activeLabelIndex == -1)
      && (|Labels(d)| > 1 && k == |Labels(d)| - 1 ==> r.activeLabelIndex == k - 1)
      && (k < |Labels(d)| - 1 ==> r.activeLabelIndex == k)
  {
  }

  /** Without an active label, `remove` (which the menu offers only with one)
      splices at -1, that is, removes the last label. */
  lemma RemoveWithoutActiveLabel(d: EditingData)
    requires Valid(d) && d.activeLabelIndex == -1 && |Labels(d)| > 0
    ensures Labels(RemoveLabel(d)) == Labels(d)[..|Labels(d)| - 1]
    ensures RemoveLabel(d).activeLabelIndex == -1
  {
  }

  /** Converting changes only the active label's type, and only when the type
      can be converted. */
  lemma ConvertChangesOneType(d: EditingData, canConvertTo: LabelType -> Option<LabelType>)
    requires Valid(d)
    ensures var r := ConvertLabelType(d, canConvertTo);
      OtherSeriesKept(d, r) && r.activeLabelIndex == d.activeLabelIndex && |Labels(r)| == |Labels(d)|
      && (forall i :: 0 <= i < |Labels(d)| && i != d.activeLabelIndex ==> Labels(r)[i] == Labels(d)[i])
      && (ActiveLabel(d).None? || canConvertTo(ActiveLabel(d).value.labelType).None? ==> r == d)
      && (ActiveLabel(d).Some? && canConvertTo(ActiveLabel(d).value.labelType).Some? ==>
            Labels(r)[d.activeLabelIndex]
            == ActiveLabel(d).value.(labelType := canConvertTo(ActiveLabel(d).value.labelType).value))
  {
  }

  /** Hiding all labels twice shows them again. */
  lemma ToggleTwiceRestores(d: EditingData, canConvertTo: LabelType -> Option<LabelType>)
    requires Valid(d)
    ensures HandleCommand(HandleCommand(d, false, ToggleHideAllLabels, None, canConvertTo).data,
                          false, ToggleHideAllLabels, None, canConvertTo).data == d
  {
  }

  // ---------------------------------------------------------------------------
  // handleAppearanceChange

  /** `handleAppearanceChange`: the active label takes the color, alpha and
      hidden flag. Without an active label, reading its data throws, which is
      `Err`. */
  function AppearanceChange(d: EditingData, color: string, alpha: real, hidden: bool): (r: Result<EditingData, string>)
    requires Valid(d)
    ensures r.Ok? <==> ActiveLabel(d).Some?
    ensures r.Ok? ==> Valid(r.value)
  {
    match ActiveLabel(d)
    case None => Err("TypeError: the active label is undefined")
    case Some(current) =>
      Ok(WithLabels(d, Labels(d)[d.activeLabelIndex := current.(color := color, alpha := alpha, hidden := hidden)]))
  }

  /** Only the active label's color, alpha and hidden flag change. */
  lemma AppearanceChangesActiveOnly(d: EditingData, color: string, alpha: real, hidden: bool)
    requires Valid(d) && ActiveLabel(d).Some?
    ensures var r := AppearanceChange(d, color, alpha, hidden).value;
      var l, m := ActiveLabel(d).value, Labels(r)[d.activeLabelIndex];
      OtherSeriesKept(d, r) && r.activeLabelIndex == d.activeLabelIndex && r.allLabelsHidden == d.allLabelsHidden
      && |Labels(r)| == |Labels(d)|
      && (forall i :: 0 <= i < |Labels(d)| && i != d.activeLabelIndex ==> Labels(r)[i] == Labels(d)[i])
      && m.color == color && m.alpha == alpha && m.hidden == hidden
      && m.temporaryKey == l.temporaryKey && m.name == l.name && m.labelType == l.labelType
  {
  }

  // ---------------------------------------------------------------------------
  // getUniqueLabelName

  /** The `k`-th alternative to `name`: `name k`. */
  function Candidate(name: string, k: int): string
  {
    name + " " + IntToString(k)
  }

  lemma CandidateInjective(name: string, a: int, b: int)
    requires Candidate(name, a) == Candidate(name, b)
    ensures a == b
  {
    var p := name + " ";
    assert Candidate(name, a)[|p|..] == IntToString(a);
    assert Candidate(name, b)[|p|..] == IntToString(b);
    IntToStringInjective(a, b);
  }

  /** The alternatives `name 2` to `name (n-1)`. */
  function CandidateSet(name: string, n: int): set<string>
    decreases n
  {
    if n <= 2 then {} else CandidateSet(name, n - 1) + {Candidate(name, n - 1)}
  }

  lemma {:induction false} CandidateNotYetTried(name: string, n: int, m: int)
    requires m >= n
    ensures Candidate(name, m) !in CandidateSet(name, n)
    decreases n
  {
    if n > 2 {
      CandidateNotYetTried(name, n - 1, m);
      if Candidate(name, m) == Candidate(name, n - 1) {
        CandidateInjective(name, m, n - 1);
      }
    }
  }

  function NameSet(labels: seq<Label>): set<string>
  {
    set i | 0 <= i < |labels| :: labels[i].name
  }

  /** The alternatives `name 2` to `name (index-1)` are all taken. */
  ghost predicate AllTaken(name: string, names: set<string>, index: int)
  {
    forall j :: 2 <= j < index ==> Candidate(name, j) in names
  }

  /** What `getUniqueLabelName` answers for `name`: a name no label of the
      series has, which is `name` itself when that is free and otherwise
      `name k` for the smallest `k >= 2` that is free. */
  ghost predicate UniqueNameOf(labels: seq<Label>, name: string, r: string)
  {
    r !in NameSet(labels)
    && (name !in NameSet(labels) ==> r == name)
    && (name in NameSet(labels) ==>
          exists k :: k >= 2 && r == Candidate(name, k) && AllTaken(name, NameSet(labels), k))
  }

  /** `getUniqueLabelName`. The loop ends because the alternatives tried are
      distinct names of labels, of which there are finitely many. */
  method UniqueLabelName(labels: seq<Label>, name: string) returns (r: string)
    ensures UniqueNameOf(labels, name, r)
  {
    var names := NameSet(labels);
    if name !in names {
      return name;
    }
    var index := 2;
    ghost var tried: set<string> := {};
    while true
      invariant index >= 2 && tried == CandidateSet(name, index) && tried <= names
      invariant AllTaken(name, names, index)
      decreases |names - tried|
    {
      var newName := Candidate(name, index);
      if newName !in names {
        assert AllTaken(name, names, index);
        return newName;
      }
      TriedStep(name, names, index, tried);
      tried := tried + {newName};
      index := index + 1;
    }
  }

  /** A name that is taken joins the alternatives tried, which are all taken
      names, so fewer untried taken names remain. */
  lemma TriedStep(name: string, names: set<string>, index: int, tried: set<string>)
    requires index >= 2 && tried == CandidateSet(name, index) && tried <= names && Candidate(name, index) in names
    requires AllTaken(name, names, index)
    ensures AllTaken(name, names, index + 1)
    ensures tried + {Candidate(name, index)} == CandidateSet(name, index + 1)
    ensures tried + {Candidate(name, index)} <= names
    ensures |names - (tried + {Candidate(name, index)})| < |names - tried|
  {
    var c := Candidate(name, index);
    CandidateNotYetTried(name, index, index);
    assert c in names - tried;
    assert names - (tried + {c}) == (names - tried) - {c};
  }

  // ---------------------------------------------------------------------------
  // addLabel

  /** `labelNames`: the base name of a new label of each type. */
  function BaseName(t: LabelType): string
  {
    match t
    case Voxel => "Voxels"
    case Ellipsoid => "3D Shape"
    case Cuboid => "3D Shape"
    case Ellipse => "2D Shape"
    case Rectangle => "2D Shape"
    case Point => "Point"
    case Ruler => "Ruler"
  }

  /** `allowedOrientations`: the viewer orientations a new label of each type
      may be placed on. */
  predicate OrientationAllowed(t: LabelType, o: Orientation)
  {
    match t
    case Voxel | Cuboid | Ellipsoid => o != Oblique
    case Ellipse | Rectangle => o == Axial
    case Point | Ruler => true
  }

  datatype LayoutItem = LayoutItem(key: string, orientation: Orientation)

  function FindLayoutItem(items: seq<LayoutItem>, key: string): (r: Option<LayoutItem>)
    ensures r.Some? ==> r.value in items && r.value.key == key
    ensures r.None? ==> forall i :: 0 <= i < |items| ==> items[i].key != key
    ensures r.Some? ==> exists i :: 0 <= i < |items| && items[i] == r.value
                                    && forall j :: 0 <= j < i ==> items[j].key != key
  {
    if items == [] then None
    else if items[0].key == key then Some(items[0])
    else
      var r := FindLayoutItem(items[1..], key);
      if r.Some? then
        var i :| 0 <= i < |items[1..]| && items[1..][i] == r.value
                 && forall j :: 0 <= j < i ==> items[1..][j].key != key;
        assert items[i + 1] == r.value;
        r
      else r
  }

  /** Why a new label was not added. */
  datatype AddRefusal = NoViewerSelected | OrientationNotAllowed | NoSuchLayoutItem

  /** The label `createNewLabel` builds: red, opaque and shown. */
  function NewLabel(temporaryKey: string, name: string, t: LabelType): Label
  {
    Label(temporaryKey, name, t, "#ff0000", 1.0, false)
  }

  /** The checks of `addLabel`: a viewer must be selected, it must be in the
      layout (otherwise the lookup throws), and its orientation must be
      allowed for the type. */
  function AddLabelCheck(t: LabelType, activeLayoutKey: Option<string>, layoutItems: seq<LayoutItem>)
    : (r: Outcome<AddRefusal>)
    ensures activeLayoutKey.None? || activeLayoutKey == Some("") ==> r == Fail(NoViewerSelected)
    ensures r == Pass <==>
      activeLayoutKey.Some? && activeLayoutKey.value != "" && FindLayoutItem(layoutItems, activeLayoutKey.value).Some?
      && OrientationAllowed(t, FindLayoutItem(layoutItems, activeLayoutKey.value).value.orientation)
  {
    match activeLayoutKey
    case None => Fail(NoViewerSelected)
    case Some(viewerId) =>
      if viewerId == "" then Fail(NoViewerSelected)
      else match FindLayoutItem(layoutItems, viewerId)
      case None => Fail(NoSuchLayoutItem)
      case Some(item) => if OrientationAllowed(t, item.orientation) then Pass else Fail(OrientationNotAllowed)
  }

  /** The editing data after the new label is pushed: it is appended to the
      active series and becomes the active label. */
  function LabelAdded(d: EditingData, added: Label): (r: EditingData)
    requires Valid(d)
    ensures Valid(r) && Labels(r) == Labels(d) + [added] && r.activeLabelIndex == |Labels(d)|
    ensures OtherSeriesKept(d, r) && r.allLabelsHidden == d.allLabelsHidden
  {
    WithLabels(d, Labels(d) + [added]).(activeLabelIndex := |Labels(d)|)
  }

  /** Adding a label keeps the active index sound. */
  lemma LabelAddedSound(d: EditingData, added: Label)
    requires Valid(d)
    ensures ActiveIndexSound(LabelAdded(d, added)) && ActiveLabel(LabelAdded(d, added)) == Some(added)
  {
  }

  /** No two labels share a name. */
  predicate DistinctNames(labels: seq<Label>)
  {
    forall i, j :: 0 <= i < j < |labels| ==> labels[i].name != labels[j].name
  }

  /** A label added under a name no label has keeps the names distinct. */
  lemma AddedNameKeepsDistinct(d: EditingData, added: Label)
    requires Valid(d) && DistinctNames(Labels(d)) && added.name !in NameSet(Labels(d))
    ensures DistinctNames(Labels(LabelAdded(d, added)))
  {
    var before, after := Labels(d), Labels(LabelAdded(d, added));
    forall i, j | 0 <= i < j < |after|
      ensures after[i].name != after[j].name
    {
      if j == |before| {
        assert after[i] == before[i];
        assert before[i].name in NameSet(before);
      } else {
        assert after[i] == before[i] && after[j] == before[j];
      }
    }
  }

  /** The case viewer's editing session, which the menu's updaters change in
      place. */
  class LabelMenuSession {
    var data: EditingData
    var newLabelType: LabelType

    constructor(data: EditingData, newLabelType: LabelType)
      requires Valid(data)
      ensures this.data == data && this.newLabelType == newLabelType
    {
      this.data := data;
      this.newLabelType := newLabelType;
    }

    /** `handleCommand`, with the prompt's answer as `newName`. */
    method Command(disabled: bool, command: Command, newName: Option<string>,
                   canConvertTo: LabelType -> Option<LabelType>) returns (revealed: bool)
      requires Valid(data)
      modifies this
      ensures var r := HandleCommand(old(data), disabled, command, newName, canConvertTo);
        data == r.data && revealed == r.revealed
      ensures newLabelType == old(newLabelType)
    {
      var r := HandleCommand(data, disabled, command, newName, canConvertTo);
      data := r.data;
      revealed := r.revealed;
    }

    /** `handleAppearanceChange`; a thrown update leaves the data as it was. */
    method ChangeAppearance(color: string, alpha: real, hidden: bool) returns (r: Outcome<string>)
      requires Valid(data)
      modifies this
      ensures var a := AppearanceChange(old(data), color, alpha, hidden);
        (a.Ok? ==> r == Pass && data == a.value) && (a.Err? ==> r == Fail(a.error) && data == old(data))
      ensures newLabelType == old(newLabelType)
    {
      var a := AppearanceChange(data, color, alpha, hidden);
      if a.Err? {
        return Fail(a.error);
      }
      data := a.value;
      r := Pass;
    }

    /** `addLabel`: remembers the type, checks the viewer, and pushes a new
        label with a unique name under the generated key `temporaryKey`. */
    method AddLabel(t: LabelType, activeLayoutKey: Option<string>, layoutItems: seq<LayoutItem>, temporaryKey: string)
      returns (r: Outcome<AddRefusal>)
      requires Valid(data)
      modifies this
      ensures newLabelType == t
      ensures r == AddLabelCheck(t, activeLayoutKey, layoutItems)
      ensures r.Fail? ==> data == old(data)
      ensures r.Pass? ==>
        exists name :: UniqueNameOf(Labels(old(data)), BaseName(t), name)
          && data == LabelAdded(old(data), NewLabel(temporaryKey, name, t))
    {
      newLabelType := t;
      r := AddLabelCheck(t, activeLayoutKey, layoutItems);
      if r.Fail? {
        return;
      }
      var name := UniqueLabelName(Labels(data), BaseName(t));
      data := LabelAdded(data, NewLabel(temporaryKey, name, t));
    }
  }
}
