/** The case viewer's cache of volume loaders: one loader per series and
    partial volume descriptor, kept in a shared map under the key
    `seriesUid & start:end:delta` and reused whenever the same series and
    range are asked for again. */
module ImageSource {
  import opened Wrappers
  import opened Strings
  import opened PartialVolumeDescriptors

  /** `stringifyPartialVolumeDescriptor`: `start:end:delta`. */
  function Stringify(d: Descriptor): string
  {
    IntToString(d.start) + ":" + IntToString(d.end) + ":" + IntToString(d.delta)
  }

  function Parts(d: Descriptor): seq<string>
  {
    [IntToString(d.start), IntToString(d.end), IntToString(d.delta)]
  }

  lemma NoSeparatorInNumber(i: int, c: char)
    requires c != '-' && !IsDigit(c)
    ensures c !in IntToString(i)
  {
    var s := IntToString(i);
    if i < 0 {
      assert forall k :: 1 <= k < |s| ==> s[k] == s[1..][k - 1];
    }
  }

  /** The text is the three numbers joined by `:`, none of which holds `:` or `&`. */
  lemma StringifyParts(d: Descriptor)
    ensures Stringify(d) == Join(Parts(d), ':')
    ensures forall i :: 0 <= i < 3 ==> ':' !in Parts(d)[i]
    ensures '&' !in Stringify(d)
  {
    var p := Parts(d);
    assert p[1..][1..] == [p[2]];
    assert Join(p[1..][1..], ':') == p[2];
    assert Join(p[1..], ':') == p[1] + [':'] + p[2];
    assert Join(p, ':') == p[0] + [':'] + (p[1] + [':'] + p[2]);
    NoSeparatorInNumber(d.start, ':');
    NoSeparatorInNumber(d.end, ':');
    NoSeparatorInNumber(d.delta, ':');
    NoSeparatorInNumber(d.start, '&');
    NoSeparatorInNumber(d.end, '&');
    NoSeparatorInNumber(d.delta, '&');
  }

  /** The parser reads a stringified descriptor back; a zero delta is read as
      no delta. */
  lemma ParseStringified(d: Descriptor)
    ensures ToPartialVolumeDescriptor(Stringify(d))
      == Ok(Some(ParsedDescriptor(d.start, d.end, if d.delta == 0 then None else Some(d.delta))))
  {
    var parts := Parts(d);
    StringifyParts(d);
    FieldsOfJoin(parts);
    ParseIntOfIntToString(d.start);
    ParseIntOfIntToString(d.end);
    ParseIntOfIntToString(d.delta);
    assert FieldsOf(parts) == [Some(d.start), Some(d.end), Some(d.delta)];
    DescriptorOfFields(Stringify(d), parts);
  }

  /** Different descriptors are written differently. */
  lemma StringifyInjective(a: Descriptor, b: Descriptor)
    requires Stringify(a) == Stringify(b)
    ensures a == b
  {
    var pa, pb := Parts(a), Parts(b);
    StringifyParts(a);
    StringifyParts(b);
    SplitJoin(pa, ':');
    SplitJoin(pb, ':');
    assert pa == pb;
    IntToStringInjective(a.start, b.start);
    IntToStringInjective(a.end, b.end);
    IntToStringInjective(a.delta, b.delta);
  }

  /** The key of a series and range in the shared map. */
  function CacheKey(seriesUid: string, d: Descriptor): string
  {
    seriesUid + "&" + Stringify(d)
  }

  /** In `a & b == c & e` with `b` the shorter tail, `e` holds the first `&`. */
  lemma SeparatorInLongerTail(a: string, b: string, c: string, e: string)
    requires a + "&" + b == c + "&" + e && |b| < |e|
    ensures e[|e| - |b| - 1] == '&'
  {
    var s := a + "&" + b;
    assert s[|a|] == '&';
    assert s[|a|] == (c + "&" + e)[|a|];
  }

  /** `a & b` with no `&` in `b` determines `a` and `b`. */
  lemma LastSeparator(a: string, b: string, c: string, e: string)
    requires '&' !in b && '&' !in e && a + "&" + b == c + "&" + e
    ensures a == c && b == e
  {
    if |b| < |e| {
      SeparatorInLongerTail(a, b, c, e);
      assert false;
    } else if |e| < |b| {
      SeparatorInLongerTail(c, e, a, b);
      assert false;
    }
    var s := a + "&" + b;
    assert s[|s| - |b|..] == b && s[|s| - |e|..] == e;
    assert s[..|a|] == a && s[..|c|] == c;
  }

  /** Two requests share a key only when they ask for the same series and the
      same range, however the series UID is spelt. */
  lemma CacheKeyInjective(u1: string, d1: Descriptor, u2: string, d2: Descriptor)
    requires CacheKey(u1, d1) == CacheKey(u2, d2)
    ensures u1 == u2 && d1 == d2
  {
    StringifyParts(d1);
    StringifyParts(d2);
    LastSeparator(u1, Stringify(d1), u2, Stringify(d2));
    StringifyInjective(d1, d2);
  }

  datatype SeriesEntry = SeriesEntry(seriesUid: string, partialVolumeDescriptor: Descriptor)

  function KeyOf(e: SeriesEntry): string
  {
    CacheKey(e.seriesUid, e.partialVolumeDescriptor)
  }

  /** The keys of the first `n` entries. */
  function KeysOf(series: seq<SeriesEntry>, n: nat): set<string>
    requires n <= |series|
  {
    if n == 0 then {} else KeysOf(series, n - 1) + {KeyOf(series[n - 1])}
  }

  /** The position of the first entry whose descriptor is invalid (`|series|`
      when all are valid). */
  function FirstInvalid(series: seq<SeriesEntry>, isValid: Descriptor -> bool): (k: nat)
    ensures k <= |series| && (k < |series| ==> !isValid(series[k].partialVolumeDescriptor))
    ensures forall i :: 0 <= i < k ==> isValid(series[i].partialVolumeDescriptor)
  {
    if series == [] then 0
    else if !isValid(series[0].partialVolumeDescriptor) then 0
    else 1 + FirstInvalid(series[1..], isValid)
  }

  /** A loader for one series and range. */
  class VolumeLoader {
    const seriesUid: string
    const partialVolumeDescriptor: Descriptor

    constructor(seriesUid: string, partialVolumeDescriptor: Descriptor)
      ensures this.seriesUid == seriesUid && this.partialVolumeDescriptor == partialVolumeDescriptor
    {
      this.seriesUid := seriesUid;
      this.partialVolumeDescriptor := partialVolumeDescriptor;
    }
  }

  /** The loaders of `before` are kept in `now`. */
  ghost predicate KeepsOld(before: map<string, VolumeLoader>, now: map<string, VolumeLoader>)
  {
    forall k :: k in before ==> k in now && now[k] == before[k]
  }

  /** Each loader added to `before` is stored under its own series and range. */
  ghost predicate KeyedByRequest(before: map<string, VolumeLoader>, now: map<string, VolumeLoader>)
  {
    forall k :: k in now && k !in before ==>
      CacheKey(now[k].seriesUid, now[k].partialVolumeDescriptor) == k
  }

  /** `out` holds the stored loaders of the first `i` entries. */
  ghost predicate Lists(now: map<string, VolumeLoader>, series: seq<SeriesEntry>, i: nat, out: seq<VolumeLoader>)
    requires i <= |series|
  {
    |out| == i && forall j :: 0 <= j < i ==> KeyOf(series[j]) in now && out[j] == now[KeyOf(series[j])]
  }

  /** The keys of `now` are those of `before` and those of the first `i` entries. */
  ghost predicate AddsKeys(before: map<string, VolumeLoader>, now: map<string, VolumeLoader>,
                           series: seq<SeriesEntry>, i: nat)
    requires i <= |series|
  {
    now.Keys == before.Keys + KeysOf(series, i)
  }

  /** `now` is `before` grown by the keys of the first `i` entries: the old
      loaders are kept and each new one is stored under its own request. */
  ghost predicate Grown(before: map<string, VolumeLoader>, now: map<string, VolumeLoader>,
                        series: seq<SeriesEntry>, i: nat)
    requires i <= |series|
  {
    KeepsOld(before, now) && AddsKeys(before, now, series, i) && KeyedByRequest(before, now)
  }

  /** `now` is `before` with the first `i` entries served. */
  ghost predicate Served(before: map<string, VolumeLoader>, now: map<string, VolumeLoader>,
                         series: seq<SeriesEntry>, i: nat, out: seq<VolumeLoader>)
    requires i <= |series|
  {
    Grown(before, now, series, i) && Lists(now, series, i, out)
  }

  lemma ServedStart(before: map<string, VolumeLoader>, series: seq<SeriesEntry>)
    ensures Served(before, before, series, 0, [])
  {
  }

  /** The map after serving one entry: unchanged when its key is present,
      otherwise extended by a loader for that entry. */
  ghost predicate ServesEntry(mid: map<string, VolumeLoader>, now: map<string, VolumeLoader>,
                              e: SeriesEntry, loader: VolumeLoader)
  {
    (KeyOf(e) in mid ==> now == mid && loader == mid[KeyOf(e)])
    && (KeyOf(e) !in mid ==>
          now == mid[KeyOf(e) := loader]
          && loader.seriesUid == e.seriesUid && loader.partialVolumeDescriptor == e.partialVolumeDescriptor)
  }

  lemma ListsStep(mid: map<string, VolumeLoader>, now: map<string, VolumeLoader>,
                  series: seq<SeriesEntry>, i: nat, out: seq<VolumeLoader>, loader: VolumeLoader)
    requires i < |series| && Lists(mid, series, i, out) && ServesEntry(mid, now, series[i], loader)
    ensures Lists(now, series, i + 1, out + [loader])
  {
    var next := out + [loader];
    forall j | 0 <= j < i + 1
      ensures KeyOf(series[j]) in now && next[j] == now[KeyOf(series[j])]
    {
      if j < i {
        assert next[j] == out[j] && KeyOf(series[j]) in mid;
      }
    }
  }

  lemma KeyedStep(before: map<string, VolumeLoader>, mid: map<string, VolumeLoader>,
                  now: map<string, VolumeLoader>, e: SeriesEntry, loader: VolumeLoader)
    requires KeyedByRequest(before, mid) && ServesEntry(mid, now, e, loader)
    ensures KeyedByRequest(before, now)
  {
  }

  lemma AddsKeysStep(before: map<string, VolumeLoader>, mid: map<string, VolumeLoader>,
                     now: map<string, VolumeLoader>, series: seq<SeriesEntry>, i: nat, loader: VolumeLoader)
    requires i < |series| && AddsKeys(before, mid, series, i) && ServesEntry(mid, now, series[i], loader)
    ensures AddsKeys(before, now, series, i + 1)
  {
    assert now.Keys == mid.Keys + {KeyOf(series[i])};
  }

  /** Serving entry `i` extends the served prefix by one. */
  lemma ServedStep(before: map<string, VolumeLoader>, mid: map<string, VolumeLoader>,
                   now: map<string, VolumeLoader>, series: seq<SeriesEntry>, i: nat,
                   out: seq<VolumeLoader>, loader: VolumeLoader)
    requires i < |series| && Served(before, mid, series, i, out) && ServesEntry(mid, now, series[i], loader)
    ensures Served(before, now, series, i + 1, out + [loader])
  {
    ListsStep(mid, now, series, i, out, loader);
    KeyedStep(before, mid, now, series[i], loader);
    AddsKeysStep(before, mid, now, series, i, loader);
    assert KeepsOld(before, now);
    assert Grown(before, now, series, i + 1);
  }

  /** Every loader in `m` is stored under its own series and range. */
  ghost predicate WellKeyed(m: map<string, VolumeLoader>)
  {
    forall k :: k in m ==> CacheKey(m[k].seriesUid, m[k].partialVolumeDescriptor) == k
  }

  /** Growing a well-keyed map keeps it well keyed. */
  lemma GrownWellKeyed(before: map<string, VolumeLoader>, now: map<string, VolumeLoader>,
                       series: seq<SeriesEntry>, n: nat)
    requires n <= |series| && WellKeyed(before) && Grown(before, now, series, n)
    ensures WellKeyed(now)
  {
  }

  /** In a well-keyed map, the loader listed for each entry loads exactly that
      entry's series and range, and two entries share a loader if and only if
      they ask for the same series and range. */
  lemma ListedLoadersMatch(now: map<string, VolumeLoader>, series: seq<SeriesEntry>, n: nat, out: seq<VolumeLoader>)
    requires n <= |series| && WellKeyed(now) && Lists(now, series, n, out)
    ensures forall j :: 0 <= j < n ==>
      out[j].seriesUid == series[j].seriesUid && out[j].partialVolumeDescriptor == series[j].partialVolumeDescriptor
    ensures forall j1, j2 :: 0 <= j1 < n && 0 <= j2 < n ==> (out[j1] == out[j2] <==> series[j1] == series[j2])
  {
    forall j | 0 <= j < n
      ensures out[j].seriesUid == series[j].seriesUid && out[j].partialVolumeDescriptor == series[j].partialVolumeDescriptor
    {
      var l := now[KeyOf(series[j])];
      CacheKeyInjective(l.seriesUid, l.partialVolumeDescriptor, series[j].seriesUid, series[j].partialVolumeDescriptor);
    }
  }

  /** The shared map of loaders. */
  class LoaderCache {
    var loaders: map<string, VolumeLoader>

    constructor()
      ensures loaders == map[]
    {
      loaders := map[];
    }

    /** The loader for one entry: the stored one when its key is present,
        otherwise a new one, which is stored under the key. */
    method Serve(entry: SeriesEntry) returns (loader: VolumeLoader)
      modifies this
      ensures ServesEntry(old(loaders), loaders, entry, loader)
      ensures KeyOf(entry) !in old(loaders) ==> fresh(loader)
    {
      var key := CacheKey(entry.seriesUid, entry.partialVolumeDescriptor);
      if key in loaders {
        loader := loaders[key];
      } else {
        loader := new VolumeLoader(entry.seriesUid, entry.partialVolumeDescriptor);
        loaders := loaders[key := loader];
      }
    }

    /** `usePendingVolumeLoaders`: one loader per entry, in order. A key already
        present yields its stored loader; a new key gets a new loader for that
        series and range. An invalid descriptor throws, after the entries before
        it have been served. `isValid` is `isValidPartialVolumeDescriptor`. */
    method PendingVolumeLoaders(series: seq<SeriesEntry>, isValid: Descriptor -> bool)
      returns (r: Result<seq<VolumeLoader>, string>)
      modifies this
      ensures Grown(old(loaders), loaders, series, FirstInvalid(series, isValid))
      ensures forall k :: k in loaders && k !in old(loaders) ==> fresh(loaders[k])
      ensures r.Ok? <==> FirstInvalid(series, isValid) == |series|
      ensures r.Ok? ==> Lists(loaders, series, |series|, r.value)
    {
      ghost var stop := FirstInvalid(series, isValid);
      var out: seq<VolumeLoader> := [];
      var i := 0;
      ServedStart(loaders, series);
      while i < |series|
        invariant 0 <= i <= stop
        invariant Served(old(loaders), loaders, series, i, out)
        invariant forall k :: k in loaders && k !in old(loaders) ==> fresh(loaders[k])
      {
        var entry := series[i];
        if !isValid(entry.partialVolumeDescriptor) {
          assert i == stop;
          return Err("Invalid partial volume descriptor");
        }
        assert i != stop;
        ghost var mid := loaders;
        var loader := Serve(entry);
        ServedStep(old(loaders), mid, loaders, series, i, out, loader);
        out := out + [loader];
        i := i + 1;
      }
      assert i == stop;
      r := Ok(out);
    }
  }
}
