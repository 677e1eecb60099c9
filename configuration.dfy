/** The development UI's configuration store: the rs server, the label and
    mask data locations, and the list of series entries one of which is
    selected; and the selectors that derive the selected series and the
    volume-rendering configuration from it. */
module Configuration {
  import opened Wrappers
  import opened Strings

  /** One configured series. The two flags are the strings `'1'` or `'0'`. */
  datatype SeriesEntry = SeriesEntry(
    selected: bool,
    title: string,
    seriesUid: string,
    partialVolumeDescriptor: string,
    useLabelDataUrl: string,
    useMaskDataUrl: string)

  /** What `seriesSelector` yields for the selected entry. */
  datatype Series = Series(seriesUid: string, partialVolumeDescriptor: string, useLabelDataUrl: string, useMaskDataUrl: string)

  /** What `vrConfigSelector` yields; `None` stands for `undefined`. */
  datatype VrConfig = VrConfig(
    server: string,
    labelHost: Option<string>,
    labelBasePath: Option<string>,
    maskDataPath: Option<string>,
    seriesUid: string,
    partialVolumeDescriptor: string)

  const Placeholder := "(seriesUid)"
  const SampleData := "/sampledata/"
  /** `/sampledata/(seriesUid)/labels/` */
  const LabelBasePath := SampleData + Placeholder + "/labels/"
  /** `/sampledata/(seriesUid)/masks/vessel_mask.raw` */
  const MaskDataPath := SampleData + Placeholder + "/masks/vessel_mask.raw"
  const AppStorageKey := "rs-demo-save"

  /** The label host built from the page's location: the port is written only
      when it is given and is not `80`. */
  function LabelHost(protocol: string, hostname: string, port: string): (h: string)
    ensures port == "" || port == "80" ==> h == protocol + "//" + hostname
    ensures port != "" && port != "80" ==> h == protocol + "//" + hostname + ":" + port
  {
    protocol + "//" + hostname + "" + (if port != "" && port != "80" then ":" + port else "")
  }

  function SeriesOf(e: SeriesEntry): Series
  {
    Series(e.seriesUid, e.partialVolumeDescriptor, e.useLabelDataUrl, e.useMaskDataUrl)
  }

  /** Entry `i` is the first selected one. */
  predicate FirstSelectedAt(entries: seq<SeriesEntry>, i: int)
  {
    0 <= i < |entries| && entries[i].selected && forall j :: 0 <= j < i ==> !entries[j].selected
  }

  /** `seriesSelector`: the four fields of the first selected entry, and
      `None` when no entry is selected. */
  function SeriesSelector(entries: seq<SeriesEntry>): (r: Option<Series>)
    ensures r.None? <==> forall i :: 0 <= i < |entries| ==> !entries[i].selected
    ensures r.Some? ==> exists i :: FirstSelectedAt(entries, i) && r.value == SeriesOf(entries[i])
  {
    if entries == [] then None
    else if entries[0].selected then
      assert FirstSelectedAt(entries, 0);
      Some(SeriesOf(entries[0]))
    else
      var r := SeriesSelector(entries[1..]);
      assert r.Some? ==> exists i :: FirstSelectedAt(entries, i) && r.value == SeriesOf(entries[i]) by {
        if r.Some? {
          var k :| FirstSelectedAt(entries[1..], k) && r.value == SeriesOf(entries[1..][k]);
          forall j | 0 <= j < k + 1
            ensures !entries[j].selected
          {
            if j > 0 {
              assert entries[j] == entries[1..][j - 1];
            }
          }
          assert FirstSelectedAt(entries, k + 1);
        }
      }
      r
  }

  /** The first selected entry is the one `seriesSelector` yields, whatever
      follows it. */
  lemma SeriesSelectorFindsFirst(entries: seq<SeriesEntry>, k: nat)
    requires FirstSelectedAt(entries, k)
    ensures SeriesSelector(entries) == Some(SeriesOf(entries[k]))
  {
    var r := SeriesSelector(entries);
    var i :| FirstSelectedAt(entries, i) && r.value == SeriesOf(entries[i]);
    assert i == k;
  }

  /** `vrConfigSelector`. The label host and base path are given only when the
      series uses label data, the mask path only when it uses mask data, and
      the paths have their first `(seriesUid)` replaced by the series UID
      through `replace`, whose `$` patterns are expanded.
      Without a selected series the destructuring throws, which is `Err`. */
  function VrConfigSelector(server: string, labelHost: string, labelBasePath: string, maskDataPath: string,
                            series: Option<Series>): (r: Result<VrConfig, string>)
    ensures r.Ok? <==> series.Some?
    ensures r.Ok? ==>
      var c, s := r.value, series.value;
      c.server == server && c.seriesUid == s.seriesUid && c.partialVolumeDescriptor == s.partialVolumeDescriptor
      && (c.labelHost.Some? <==> s.useLabelDataUrl == "1")
      && (c.labelBasePath.Some? <==> s.useLabelDataUrl == "1")
      && (c.maskDataPath.Some? <==> s.useMaskDataUrl == "1")
      && (c.labelHost.Some? ==> c.labelHost.value == labelHost)
      && (c.labelBasePath.Some? ==> c.labelBasePath.value == ReplaceFirst(labelBasePath, Placeholder, s.seriesUid))
      && (c.maskDataPath.Some? ==> c.maskDataPath.value == ReplaceFirst(maskDataPath, Placeholder, s.seriesUid))
  {
    match series
    case None => Err("TypeError: the selected series is undefined")
    case Some(s) =>
      Ok(VrConfig(
        server,
        if s.useLabelDataUrl == "1" then Some(labelHost) else None,
        if s.useLabelDataUrl == "1" then Some(ReplaceFirst(labelBasePath, Placeholder, s.seriesUid)) else None,
        if s.useMaskDataUrl == "1" then Some(ReplaceFirst(maskDataPath, Placeholder, s.seriesUid)) else None,
        s.seriesUid,
        s.partialVolumeDescriptor))
  }

  /** A path whose first `(` opens the placeholder gets the series UID in
      its place, with `replace`'s `$` patterns expanded; a UID without `$`
      (DICOM UIDs are digits and dots) is inserted literally. */
  lemma PlaceholderReplaced(pre: string, post: string, uid: string)
    requires '(' !in pre
    ensures ReplaceFirst(pre + Placeholder + post, Placeholder, uid)
      == pre + Substitution(uid, Placeholder, pre, post) + post
    ensures '$' !in uid ==> ReplaceFirst(pre + Placeholder + post, Placeholder, uid) == pre + uid + post
  {
    var s := pre + Placeholder + post;
    forall j | 0 <= j < |pre|
      ensures !OccursAt(s, Placeholder, j)
    {
      assert s[j] == pre[j];
    }
    ReplaceFirstAt(pre, Placeholder, post, uid);
  }

  /** The default label path holds the placeholder right after `/sampledata/`. */
  lemma DefaultLabelPathSubstitute(uid: string)
    ensures ReplaceFirst(LabelBasePath, Placeholder, uid)
      == SampleData + Substitution(uid, Placeholder, SampleData, "/labels/") + "/labels/"
    ensures '$' !in uid ==> ReplaceFirst(LabelBasePath, Placeholder, uid) == SampleData + uid + "/labels/"
  {
    PlaceholderReplaced(SampleData, "/labels/", uid);
  }

  /** So does the default mask path. */
  lemma DefaultMaskPathSubstitute(uid: string)
    ensures ReplaceFirst(MaskDataPath, Placeholder, uid)
      == SampleData + Substitution(uid, Placeholder, SampleData, "/masks/vessel_mask.raw") + "/masks/vessel_mask.raw"
    ensures '$' !in uid ==> ReplaceFirst(MaskDataPath, Placeholder, uid) == SampleData + uid + "/masks/vessel_mask.raw"
  {
    PlaceholderReplaced(SampleData, "/masks/vessel_mask.raw", uid);
  }

  /** A `$&` in the UID brings the matched placeholder back. */
  lemma DollarAmpersandKeepsPlaceholder()
    ensures ReplaceFirst(LabelBasePath, Placeholder, "1.2$&") == SampleData + "1.2" + Placeholder + "/labels/"
  {
    DefaultLabelPathSubstitute("1.2$&");
    DollarAmpersandSubstitution(SampleData, "/labels/");
  }

  lemma DollarAmpersandSubstitution(b: string, a: string)
    ensures Substitution("1.2$&", Placeholder, b, a) == "1.2" + Placeholder
  {
    assert Substitution("", Placeholder, b, a) == "";
    assert Substitution("$&", Placeholder, b, a) == Placeholder + Substitution("", Placeholder, b, a);
    assert Substitution("2$&", Placeholder, b, a) == "2" + Substitution("$&", Placeholder, b, a);
    assert Substitution(".2$&", Placeholder, b, a) == "." + Substitution("2$&", Placeholder, b, a);
    assert Substitution("1.2$&", Placeholder, b, a) == "1" + Substitution(".2$&", Placeholder, b, a);
  }

  /** The configuration slice. */
  class ConfigurationStore {
    var appStorageKey: string
    var server: string
    var labelHost: string
    var labelBasePath: string
    var maskDataPath: string
    var seriesEntries: seq<SeriesEntry>

    /** The initial state, for the page's label host. */
    constructor(labelHost: string)
      ensures appStorageKey == AppStorageKey && server == "" && this.labelHost == labelHost
      ensures labelBasePath == LabelBasePath && maskDataPath == MaskDataPath && seriesEntries == []
    {
      appStorageKey := AppStorageKey;
      server := "";
      this.labelHost := labelHost;
      labelBasePath := LabelBasePath;
      maskDataPath := MaskDataPath;
      seriesEntries := [];
    }

    /** `setServer`: replaces the server and nothing else. */
    method SetServer(payload: string)
      modifies this
      ensures server == payload
      ensures appStorageKey == old(appStorageKey) && labelHost == old(labelHost)
      ensures labelBasePath == old(labelBasePath) && maskDataPath == old(maskDataPath)
      ensures seriesEntries == old(seriesEntries)
    {
      server := payload;
    }

    /** `setSeriesEntries`: replaces the entries and nothing else. */
    method SetSeriesEntries(payload: seq<SeriesEntry>)
      modifies this
      ensures seriesEntries == payload
      ensures appStorageKey == old(appStorageKey) && labelHost == old(labelHost)
      ensures labelBasePath == old(labelBasePath) && maskDataPath == old(maskDataPath)
      ensures server == old(server)
    {
      seriesEntries := payload;
    }
  }
}
