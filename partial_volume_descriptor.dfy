/** The text form of a partial volume descriptor, `start:end(:delta)`, which
    selects the images `start` to `end` of a series in steps of `delta`, and
    the parser the development UI applies to it. */
module PartialVolumeDescriptors {
  import opened Wrappers
  import opened Strings

  /** A descriptor as the loaders take it: three integers. */
  datatype Descriptor = Descriptor(start: int, end: int, delta: int)

  /** A parsed descriptor, whose delta may be missing (`undefined`). */
  datatype ParsedDescriptor = ParsedDescriptor(start: int, end: int, delta: Option<int>)

  /** The first three `:`-separated fields read with `parseInt`; a missing
      field, like one that is not a number, is `None` (`NaN`). */
  function Fields(s: string): (f: seq<Option<int>>)
    ensures |f| == 3
  {
    FieldsOf(Split(s, ':'))
  }

  function FieldsOf(parts: seq<string>): (f: seq<Option<int>>)
    ensures |f| == 3
  {
    [Field(parts, 0), Field(parts, 1), Field(parts, 2)]
  }

  function Field(parts: seq<string>, i: nat): Option<int>
  {
    if i < |parts| then ParseInt(parts[i]) else None
  }

  /** `toPartialVolumeDescriptor`: `Ok(None)` when no field is a number,
      a descriptor when start and end are numbers (a missing or zero delta
      becomes `None`), and an error for any other mix. */
  function ToPartialVolumeDescriptor(s: string): (r: Result<Option<ParsedDescriptor>, string>)
    ensures var f := Fields(s);
      (r == Ok(None) <==> f[0].None? && f[1].None? && f[2].None?)
      && (r.Ok? && r.value.Some? <==> f[0].Some? && f[1].Some?)
      && (r.Ok? && r.value.Some? ==>
            Some(r.value.value.start) == f[0] && Some(r.value.value.end) == f[1]
            && (r.value.value.delta.Some? <==> f[2].Some? && f[2].value != 0)
            && (r.value.value.delta.Some? ==> r.value.value.delta == f[2]))
  {
    FromFields(Fields(s))
  }

  /** The message thrown for a malformed descriptor. */
  const InvalidDescriptor: string := "Invalid partial volume descriptor specified. "
    + "partial volume descriptor must be in the form of `startImgNum:endImgNum(:imageDelta)`"

  function FromFields(f: seq<Option<int>>): Result<Option<ParsedDescriptor>, string>
    requires |f| == 3
  {
    var start, end, delta := f[0], f[1], f[2];
    if start.None? && end.None? && delta.None? then Ok(None)
    else if start.Some? && end.Some? then
      Ok(Some(ParsedDescriptor(start.value, end.value, if delta.Some? && delta.value != 0 then delta else None)))
    else Err(InvalidDescriptor)
  }

  /** Fields after the third one are never read. */
  lemma ExtraFieldsIgnored(parts: seq<string>)
    requires |parts| >= 3 && forall i :: 0 <= i < |parts| ==> ':' !in parts[i]
    ensures ToPartialVolumeDescriptor(Join(parts, ':')) == ToPartialVolumeDescriptor(Join(parts[..3], ':'))
  {
    FieldsOfJoin(parts);
    FieldsOfJoin(parts[..3]);
    FieldsOfPrefix(parts);
    DescriptorOfFields(Join(parts, ':'), parts);
    DescriptorOfFields(Join(parts[..3], ':'), parts[..3]);
  }

  lemma FieldsOfPrefix(parts: seq<string>)
    requires |parts| >= 3
    ensures FieldsOf(parts) == FieldsOf(parts[..3])
  {
    var p := parts[..3];
    assert p[0] == parts[0] && p[1] == parts[1] && p[2] == parts[2];
    assert Field(p, 0) == Field(parts, 0) && Field(p, 1) == Field(parts, 1) && Field(p, 2) == Field(parts, 2);
  }

  /** The empty string describes nothing. */
  lemma EmptyIsUndefined()
    ensures ToPartialVolumeDescriptor("") == Ok(None)
  {
    assert Split("", ':') == [""];
    assert ParseInt("") == None;
    assert Fields("") == [None, None, None];
  }

  /** Fields none of which is a number describe nothing. */
  lemma NoNumbersIsUndefined(parts: seq<string>)
    requires |parts| > 0 && forall i :: 0 <= i < |parts| ==> ':' !in parts[i] && ParseInt(parts[i]).None?
    ensures ToPartialVolumeDescriptor(Join(parts, ':')) == Ok(None)
  {
    FieldsOfJoin(parts);
    DescriptorOfFields(Join(parts, ':'), parts);
    assert Field(parts, 0).None? && Field(parts, 1).None? && Field(parts, 2).None?;
    NoFieldsIsUndefined(FieldsOf(parts));
  }

  lemma DescriptorOfFields(s: string, parts: seq<string>)
    requires Fields(s) == FieldsOf(parts)
    ensures ToPartialVolumeDescriptor(s) == FromFields(FieldsOf(parts))
  {
  }

  /** Joined `:`-free fields are read back field by field. */
  lemma FieldsOfJoin(parts: seq<string>)
    requires |parts| > 0 && forall i :: 0 <= i < |parts| ==> ':' !in parts[i]
    ensures Fields(Join(parts, ':')) == FieldsOf(parts)
  {
    SplitJoin(parts, ':');
  }

  lemma NoFieldsIsUndefined(f: seq<Option<int>>)
    requires |f| == 3 && f[0].None? && f[1].None? && f[2].None?
    ensures FromFields(f) == Ok(None)
  {
  }

  /** A start without an end is refused. */
  lemma StartWithoutEndThrows()
    ensures ToPartialVolumeDescriptor("5").Err?
  {
    assert Split("5", ':') == ["5"];
    LeadingIntegerOfDigits("5", "");
    assert TrimStart(JsSpace, "5") == "5";
    assert "5" + "" == "5";
  }
}
