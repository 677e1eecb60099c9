/** The check the series export performs before it exports a series: the
    request must name a series that exists and give a start and an end image,
    and each of the two must lie in one of the image ranges the series lists
    (`images`, e.g. `1-80,101-120`). */
module SeriesExport {
  import opened Wrappers
  import opened Strings

  /** The request fields the check reads; `None` is a field that is not set. */
  datatype Inputs = Inputs(seriesUid: Option<string>, exportStartImg: Option<string>, exportEndImg: Option<string>)

  /** A stored series; only its image ranges are read. */
  datatype Series = Series(images: string)

  const NoSeriesUid := "Please select the seriesUID ."
  const NoSuchSeries := "The series does not exist ."
  const NoImageRange := "Please specify a series image range ."
  const OutOfRange := "The image of out of  the scope  is specified ."

  /** The two ends of a range piece: `a-b` gives `a` and `b` (what follows a
      second `-` is dropped), a piece without `-` is both ends at once. */
  function Ends(piece: string): (string, string)
  {
    if '-' in piece then
      var halves := Split(piece, '-');
      assert |halves| >= 2 by { SplitHasSeparatorPieces(piece, '-'); }
      (halves[0], halves[1])
    else (piece, piece)
  }

  /** Splitting a text that holds the separator gives at least two pieces. */
  lemma SplitHasSeparatorPieces(s: string, sep: char)
    requires sep in s
    ensures |Split(s, sep)| >= 2
  {
  }

  /** The piece's range, read with `intval`, holds `n`. */
  predicate Covers(piece: string, n: int)
  {
    Low(piece) <= n <= High(piece)
  }

  /** `intval` of the piece's first end, and of its second. */
  function Low(piece: string): int
  {
    PhpIntval(Ends(piece).0)
  }

  function High(piece: string): int
  {
    PhpIntval(Ends(piece).1)
  }

  predicate InSomePiece(pieces: seq<string>, n: int)
  {
    exists p :: 0 <= p < |pieces| && Covers(pieces[p], n)
  }

  /** One of the first `i` pieces, whose bounds are `low` and `high`, holds
      `n`: what the flag for `n` says after `i` pieces. */
  function CoveredWithin(pieces: seq<string>, i: nat, n: int, low: string -> int, high: string -> int): bool
    requires i <= |pieces|
  {
    i > 0 && (CoveredWithin(pieces, i - 1, n, low, high) || low(pieces[i - 1]) <= n <= high(pieces[i - 1]))
  }

  lemma {:induction false} CoveredWithinExists(pieces: seq<string>, i: nat, n: int, low: string -> int, high: string -> int)
    requires i <= |pieces|
    ensures CoveredWithin(pieces, i, n, low, high) <==> exists p :: 0 <= p < i && low(pieces[p]) <= n <= high(pieces[p])
  {
    if i > 0 {
      CoveredWithinExists(pieces, i - 1, n, low, high);
      if low(pieces[i - 1]) <= n <= high(pieces[i - 1]) {
        assert exists p :: 0 <= p < i && low(pieces[p]) <= n <= high(pieces[p]);
      }
    }
  }

  /** A flag once raised stays raised. */
  lemma {:induction false} CoveredWithinGrows(pieces: seq<string>, i: nat, j: nat, n: int, low: string -> int, high: string -> int)
    requires i <= j <= |pieces| && CoveredWithin(pieces, i, n, low, high)
    ensures CoveredWithin(pieces, j, n, low, high)
    decreases j - i
  {
    if i < j {
      CoveredWithinGrows(pieces, i, j - 1, n, low, high);
    }
  }

  /** After every piece the flag says whether some piece holds `n`. */
  lemma CoveredWithinAll(pieces: seq<string>, n: int)
    ensures CoveredWithin(pieces, |pieces|, n, Low, High) <==> InSomePiece(pieces, n)
  {
    CoveredWithinExists(pieces, |pieces|, n, Low, High);
  }

  /** What the check decides: the first failing condition's message, or
      `Pass`. */
  function ValidateOutcome(inputs: Inputs, find: string -> Option<Series>): (r: Outcome<string>)
    ensures inputs.seriesUid.None? ==> r == Fail(NoSeriesUid)
    ensures inputs.seriesUid.Some? && find(inputs.seriesUid.value).None? ==> r == Fail(NoSuchSeries)
    ensures r.Pass? ==>
      && inputs.seriesUid.Some? && find(inputs.seriesUid.value).Some?
      && inputs.exportStartImg.Some? && inputs.exportEndImg.Some?
      && InSomePiece(Split(find(inputs.seriesUid.value).value.images, ','), PhpIntval(inputs.exportStartImg.value))
      && InSomePiece(Split(find(inputs.seriesUid.value).value.images, ','), PhpIntval(inputs.exportEndImg.value))
    ensures r.Fail? ==> r.error == NoSeriesUid || r.error == NoSuchSeries || r.error == NoImageRange || r.error == OutOfRange
  {
    if inputs.seriesUid.None? then Fail(NoSeriesUid)
    else if find(inputs.seriesUid.value).None? then Fail(NoSuchSeries)
    else if inputs.exportStartImg.None? || inputs.exportEndImg.None? then Fail(NoImageRange)
    else
      var pieces := Split(find(inputs.seriesUid.value).value.images, ',');
      if InSomePiece(pieces, PhpIntval(inputs.exportStartImg.value))
         && InSomePiece(pieces, PhpIntval(inputs.exportEndImg.value))
      then Pass
      else Fail(OutOfRange)
  }

  /** `validate`: the checks in order, then the scan of the range pieces.
      `find` is the series lookup. */
  method Validate(inputs: Inputs, find: string -> Option<Series>) returns (r: Outcome<string>)
    ensures r == ValidateOutcome(inputs, find)
  {
    if inputs.seriesUid.None? {
      return Fail(NoSeriesUid);
    }
    var series := find(inputs.seriesUid.value);
    if series.None? {
      return Fail(NoSuchSeries);
    }
    if inputs.exportStartImg.None? || inputs.exportEndImg.None? {
      return Fail(NoImageRange);
    }
    var imageRange := Split(series.value.images, ',');
    var start, end := PhpIntval(inputs.exportStartImg.value), PhpIntval(inputs.exportEndImg.value);
    var stRangeFlag, edRangeFlag := ScanRanges(imageRange, start, end, Low, High);
    CoveredWithinAll(imageRange, start);
    CoveredWithinAll(imageRange, end);
    if !stRangeFlag || !edRangeFlag {
      return Fail(OutOfRange);
    }
    return Pass;
  }

  /** The loop of `validate`: one pass over the range pieces that raises a
      flag for the start and one for the end, and stops as soon as both are
      raised; `low` and `high` are `intval` of a piece's two ends. Stopping
      early gives the same flags as reading every piece. */
  method ScanRanges(imageRange: seq<string>, start: int, end: int, low: string -> int, high: string -> int)
    returns (stRangeFlag: bool, edRangeFlag: bool)
    ensures stRangeFlag == CoveredWithin(imageRange, |imageRange|, start, low, high)
    ensures edRangeFlag == CoveredWithin(imageRange, |imageRange|, end, low, high)
  {
    stRangeFlag, edRangeFlag := false, false;
    var i := 0;
    while i < |imageRange|
      invariant 0 <= i <= |imageRange|
      invariant stRangeFlag == CoveredWithin(imageRange, i, start, low, high)
      invariant edRangeFlag == CoveredWithin(imageRange, i, end, low, high)
    {
      var stRange, edRange := low(imageRange[i]), high(imageRange[i]);
      if !stRangeFlag {
        if start >= stRange && start <= edRange {
          stRangeFlag := true;
        }
      }
      if !edRangeFlag {
        if end >= stRange && end <= edRange {
          edRangeFlag := true;
        }
      }
      if stRangeFlag && edRangeFlag {
        CoveredWithinGrows(imageRange, i + 1, |imageRange|, start, low, high);
        CoveredWithinGrows(imageRange, i + 1, |imageRange|, end, low, high);
        break;
      }
      i := i + 1;
    }
  }

  /** A piece `a` holds exactly the image `a`. */
  lemma SinglePieceCovers(a: int, n: int)
    requires '-' !in IntToString(a)
    ensures Covers(IntToString(a), n) <==> n == a
  {
    PhpIntvalOfIntToString(a);
  }

  /** A piece `a-b` of two non-negative numbers holds the images `a` to `b`. */
  lemma RangePieceCovers(a: nat, b: nat, n: int)
    ensures Covers(IntToString(a) + "-" + IntToString(b), n) <==> a <= n <= b
  {
    var sa, sb := IntToString(a), IntToString(b);
    NoDashInNatText(a);
    NoDashInNatText(b);
    var piece := sa + "-" + sb;
    SplitJoin([sa, sb], '-');
    assert Join([sa, sb], '-') == piece by {
      assert [sa, sb][1..] == [sb];
    }
    PhpIntvalOfIntToString(a);
    PhpIntvalOfIntToString(b);
  }

  lemma NoDashInNatText(n: nat)
    ensures '-' !in IntToString(n)
  {
    assert IntToString(n) == NatToString(n);
    assert AllDigits(NatToString(n)) by { NatToStringValue(n); }
  }

  /** The check never compares the start with the end: swapping them does not
      change its outcome. */
  lemma StartAndEndSwap(inputs: Inputs, find: string -> Option<Series>)
    ensures ValidateOutcome(inputs, find)
      == ValidateOutcome(inputs.(exportStartImg := inputs.exportEndImg, exportEndImg := inputs.exportStartImg), find)
  {
  }
}
