/** The edits the configuration page makes to its list of series entries
    before it hands the list to the store: remove an entry, change one field
    of an entry, select an entry, and add an empty entry. Each builds a new
    list; entries are told apart by an `id` the page generates. */
module ConfigurationList {
  import opened Wrappers
  import opened Configuration

  /** An entry of the page's list: a series entry and its id. */
  datatype ListEntry = ListEntry(id: string, entry: SeriesEntry)

  /** The text fields the entry inputs edit. */
  datatype EntryField = Title | SeriesUidField | PartialVolumeDescriptorField | UseLabelDataUrl | UseMaskDataUrl

  function SetField(e: SeriesEntry, f: EntryField, v: string): SeriesEntry
  {
    match f
    case Title => e.(title := v)
    case SeriesUidField => e.(seriesUid := v)
    case PartialVolumeDescriptorField => e.(partialVolumeDescriptor := v)
    case UseLabelDataUrl => e.(useLabelDataUrl := v)
    case UseMaskDataUrl => e.(useMaskDataUrl := v)
  }

  function GetField(e: SeriesEntry, f: EntryField): string
  {
    match f
    case Title => e.title
    case SeriesUidField => e.seriesUid
    case PartialVolumeDescriptorField => e.partialVolumeDescriptor
    case UseLabelDataUrl => e.useLabelDataUrl
    case UseMaskDataUrl => e.useMaskDataUrl
  }

  /** Setting a field changes that field and no other. */
  lemma SetFieldChangesOne(e: SeriesEntry, f: EntryField, v: string)
    ensures GetField(SetField(e, f, v), f) == v
    ensures forall g :: g != f ==> GetField(SetField(e, f, v), g) == GetField(e, g)
    ensures SetField(e, f, v).selected == e.selected
  {
  }

  /** The series entries as the store receives them. */
  function Entries(list: seq<ListEntry>): (r: seq<SeriesEntry>)
    ensures |r| == |list| && forall i :: 0 <= i < |list| ==> r[i] == list[i].entry
  {
    seq(|list|, i requires 0 <= i < |list| => list[i].entry)
  }

  predicate UniqueIds(list: seq<ListEntry>)
  {
    forall i, j :: 0 <= i < j < |list| ==> list[i].id != list[j].id
  }

  /** `handleRemoveEntry`: the entries whose id differs, in their order. */
  function RemoveEntry(list: seq<ListEntry>, id: string): (r: seq<ListEntry>)
    ensures forall e :: e in r <==> e in list && e.id != id
    ensures |r| <= |list|
  {
    if list == [] then []
    else if list[0].id != id then [list[0]] + RemoveEntry(list[1..], id)
    else RemoveEntry(list[1..], id)
  }

  /** Removing an id that is not in the list keeps the list as it is. */
  lemma {:induction false} RemoveAbsentId(list: seq<ListEntry>, id: string)
    requires forall i :: 0 <= i < |list| ==> list[i].id != id
    ensures RemoveEntry(list, id) == list
  {
    if list != [] {
      RemoveAbsentId(list[1..], id);
      assert [list[0]] + list[1..] == list;
    }
  }

  /** With unique ids, removing an entry's id leaves the list one shorter,
      with the entries on each side of it. */
  lemma {:induction false} RemovePresentId(list: seq<ListEntry>, k: nat)
    requires UniqueIds(list) && k < |list|
    ensures RemoveEntry(list, list[k].id) == list[..k] + list[k + 1..]
  {
    var id := list[k].id;
    if k == 0 {
      RemoveAbsentId(list[1..], id);
    } else {
      assert UniqueIds(list[1..]) by {
        forall i, j | 0 <= i < j < |list[1..]| ensures list[1..][i].id != list[1..][j].id {
          assert list[1..][i] == list[i + 1] && list[1..][j] == list[j + 1];
        }
      }
      assert list[1..][k - 1] == list[k];
      RemovePresentId(list[1..], k - 1);
      assert list[..k] == [list[0]] + list[1..][..k - 1];
      assert list[k + 1..] == list[1..][k..];
    }
  }

  /** The position of the first entry with the id, as `findIndex` finds it. */
  function FindIndex(list: seq<ListEntry>, id: string): (r: Option<nat>)
    ensures r.Some? ==>
      r.value < |list| && list[r.value].id == id && forall j :: 0 <= j < r.value ==> list[j].id != id
    ensures r.None? ==> forall j :: 0 <= j < |list| ==> list[j].id != id
  {
    if list == [] then None
    else if list[0].id == id then Some(0)
    else match FindIndex(list[1..], id)
      case None => None
      case Some(k) => Some(k + 1)
  }

  /** `handleEntryInput(id, field)(ev, value)`: the first entry with the id gets
      `value ?? ev.target.value` in that field; an unknown id changes nothing. */
  function EntryInput(list: seq<ListEntry>, id: string, f: EntryField, value: Option<string>, targetValue: string)
    : (r: seq<ListEntry>)
    ensures |r| == |list|
    ensures FindIndex(list, id).None? ==> r == list
    ensures FindIndex(list, id).Some? ==>
      var k := FindIndex(list, id).value;
      r[k].id == id && r[k].entry == SetField(list[k].entry, f, if value.Some? then value.value else targetValue)
      && forall j :: 0 <= j < |list| && j != k ==> r[j] == list[j]
  {
    match FindIndex(list, id)
    case None => list
    case Some(index) =>
      var e := list[index];
      list[..index] + [ListEntry(e.id, SetField(e.entry, f, if value.Some? then value.value else targetValue))]
        + list[index + 1..]
  }

  /** `handleSelectEntry(id, selected)`: every entry's flag becomes `selected`
      and-ed with whether its id is `id`. */
  function SelectEntry(list: seq<ListEntry>, id: string, selected: bool): (r: seq<ListEntry>)
    ensures |r| == |list|
    ensures forall i :: 0 <= i < |list| ==>
      r[i].id == list[i].id && r[i].entry == list[i].entry.(selected := selected && list[i].id == id)
  {
    seq(|list|, i requires 0 <= i < |list| => ListEntry(list[i].id, list[i].entry.(selected := selected && list[i].id == id)))
  }

  /** Selecting an id leaves exactly the entries with that id selected;
      deselecting leaves none selected. */
  lemma SelectEntrySelects(list: seq<ListEntry>, id: string, selected: bool)
    ensures forall i :: 0 <= i < |list| ==>
      (SelectEntry(list, id, selected)[i].entry.selected <==> selected && list[i].id == id)
  {
  }

  /** The entry `onClickAddSeriesEntryButton` appends. */
  function EmptyEntry(): SeriesEntry
  {
    SeriesEntry(false, "", "", "", "0", "0")
  }

  /** `onClickAddSeriesEntryButton`: appends one unselected entry with empty
      texts and both flags `'0'`, under the generated id `newId`. */
  function AddEntry(list: seq<ListEntry>, newId: string): (r: seq<ListEntry>)
    ensures |r| == |list| + 1 && r[..|list|] == list
    ensures r[|list|] == ListEntry(newId, SeriesEntry(false, "", "", "", "0", "0"))
  {
    list + [ListEntry(newId, EmptyEntry())]
  }

  /** A new entry is not selected, so adding one never changes the selected
      series. */
  lemma AddEntryKeepsSelection(list: seq<ListEntry>, newId: string)
    ensures SeriesSelector(Entries(AddEntry(list, newId))) == SeriesSelector(Entries(list))
  {
    var before, after := Entries(list), Entries(AddEntry(list, newId));
    match SeriesSelector(before)
    case None =>
      assert forall i :: 0 <= i < |after| ==> !after[i].selected;
    case Some(s) =>
      var k :| FirstSelectedAt(before, k) && s == SeriesOf(before[k]);
      assert FirstSelectedAt(after, k);
      SeriesSelectorFindsFirst(after, k);
  }

  /** With unique ids, selecting the entry at `k` makes `seriesSelector` yield
      that entry. */
  lemma SelectThenSeriesSelector(list: seq<ListEntry>, k: nat)
    requires UniqueIds(list) && k < |list|
    ensures SeriesSelector(Entries(SelectEntry(list, list[k].id, true))) == Some(SeriesOf(list[k].entry))
  {
    var after := Entries(SelectEntry(list, list[k].id, true));
    assert FirstSelectedAt(after, k);
    SeriesSelectorFindsFirst(after, k);
  }

  /** Deselecting leaves no selected series. */
  lemma DeselectThenNoSeries(list: seq<ListEntry>, id: string)
    ensures SeriesSelector(Entries(SelectEntry(list, id, false))).None?
  {
  }
}
