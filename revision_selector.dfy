/** The revision drop-down of the case viewer: one option `rev<k>` per
    revision, newest first, and the index read back from a chosen key. */
module RevisionSelector {
  import opened Wrappers
  import opened Strings

  /** What an option shows of a revision. */
  datatype Revision = Revision(date: string, status: string, description: string, creator: string)

  /** The option key of the revision at index `k`. */
  function OptionKey(k: int): string
  {
    "rev" + IntToString(k)
  }

  lemma OptionKeyInjective(a: int, b: int)
    requires OptionKey(a) == OptionKey(b)
    ensures a == b
  {
    assert OptionKey(a)[3..] == IntToString(a);
    assert OptionKey(b)[3..] == IntToString(b);
    IntToStringInjective(a, b);
  }

  /** `slice().reverse()`: a reversed copy. */
  function Reverse(s: seq<Revision>): (r: seq<Revision>)
    ensures |r| == |s| && forall i :: 0 <= i < |s| ==> r[i] == s[|s| - 1 - i]
  {
    if s == [] then [] else [s[|s| - 1]] + Reverse(s[..|s| - 1])
  }

  ghost predicate Injective(keyOf: int -> string)
  {
    forall a, b :: keyOf(a) == keyOf(b) ==> a == b
  }

  lemma OptionKeysDistinct()
    ensures Injective(OptionKey)
  {
    forall a, b | OptionKey(a) == OptionKey(b)
      ensures a == b
    {
      OptionKeyInjective(a, b);
    }
  }

  /** `keys` and `opts` hold the options of the `i` newest revisions, keyed
      by `keyOf`. */
  ghost predicate OptionsBuilt(keyOf: int -> string, revisions: seq<Revision>, i: nat, keys: seq<string>, opts: map<string, Revision>)
  {
    i <= |revisions| && |keys| == i
    && (forall j :: 0 <= j < i ==> keys[j] == keyOf(|revisions| - 1 - j))
    && (forall key :: key in opts <==> key in keys)
    && (forall k :: |revisions| - i <= k < |revisions| ==> keyOf(k) in opts && opts[keyOf(k)] == revisions[k])
  }

  /** The key of the next older revision is new, so adding it keeps the
      options of the newer ones. */
  lemma OptionsStep(keyOf: int -> string, revisions: seq<Revision>, i: nat, keys: seq<string>, opts: map<string, Revision>)
    requires Injective(keyOf) && OptionsBuilt(keyOf, revisions, i, keys, opts) && i < |revisions|
    ensures var key := keyOf(|revisions| - 1 - i);
      key !in opts && OptionsBuilt(keyOf, revisions, i + 1, keys + [key], opts[key := revisions[|revisions| - 1 - i]])
  {
  }

  /** The `opts` object: its keys in insertion order and its entries. The
      option for revision `k` is keyed `rev<k>`, and the newest comes first. */
  method BuildOptions(revisions: seq<Revision>) returns (keys: seq<string>, opts: map<string, Revision>)
    ensures OptionsBuilt(OptionKey, revisions, |revisions|, keys, opts)
  {
    OptionKeysDistinct();
    var reversed := Reverse(revisions);
    var n := |revisions|;
    keys, opts := [], map[];
    var i := 0;
    while i < n
      invariant 0 <= i <= n
      invariant OptionsBuilt(OptionKey, revisions, i, keys, opts)
    {
      var r := reversed[i];
      var originalIndex := n - i - 1;
      var key := OptionKey(originalIndex);
      OptionsStep(OptionKey, revisions, i, keys, opts);
      if key !in opts {
        keys := keys + [key];
      }
      opts := opts[key := r];
      i := i + 1;
    }
  }

  /** Where the digits at the end of `s` begin. */
  function TrailingStart(s: string): (k: nat)
    ensures k <= |s| && (forall i :: k <= i < |s| ==> IsDigit(s[i]))
    ensures k > 0 ==> !IsDigit(s[k - 1])
  {
    if s == [] || !IsDigit(s[|s| - 1]) then |s| else TrailingStart(s[..|s| - 1])
  }

  /** The digits at the end of `s` (what `/(\d+)$/` captures). */
  function TrailingDigits(s: string): (d: string)
    ensures AllDigits(d)
  {
    s[TrailingStart(s)..]
  }

  /** `handleSelect`: the trailing number of the chosen key; a key not ending
      in a digit makes the regular expression fail and the access throw. */
  function HandleSelect(value: string): (r: Result<int, string>)
    ensures r.Err? <==> value == [] || !IsDigit(value[|value| - 1])
  {
    var d := TrailingDigits(value);
    if d == [] then Err("TypeError: no trailing number")
    else
      ParseIntOfDigits(d);
      match ParseInt(d)
      case Some(index) => Ok(index)
      case None => Err("NaN")
  }

  lemma {:induction false} TrailingDigitsAfter(pre: string, d: string)
    requires AllDigits(d) && (pre == [] || !IsDigit(pre[|pre| - 1]))
    ensures TrailingDigits(pre + d) == d
    decreases |d|
  {
    if d == [] {
      assert pre + d == pre;
    } else {
      var s := pre + d;
      assert s[..|s| - 1] == pre + d[..|d| - 1];
      TrailingDigitsAfter(pre, d[..|d| - 1]);
      assert d == d[..|d| - 1] + [d[|d| - 1]];
    }
  }

  /** Choosing the option of revision `k` selects index `k`. */
  lemma SelectRoundTrip(k: nat)
    ensures HandleSelect(OptionKey(k)) == Ok(k)
  {
    assert IntToString(k) == NatToString(k);
    TrailingDigitsAfter("rev", IntToString(k));
    ParseIntOfIntToString(k);
  }

  /** The `rev<selected>` value names an option exactly when `selected` is an
      index of `revisions`, and that option shows revision `selected`. */
  lemma SelectedKeyListed(revisions: seq<Revision>, keys: seq<string>, opts: map<string, Revision>, selected: int)
    requires OptionsBuilt(OptionKey, revisions, |revisions|, keys, opts)
    ensures OptionKey(selected) in opts <==> 0 <= selected < |revisions|
    ensures 0 <= selected < |revisions| ==> opts[OptionKey(selected)] == revisions[selected]
  {
    if OptionKey(selected) in opts {
      var i :| 0 <= i < |keys| && keys[i] == OptionKey(selected);
      OptionKeyInjective(selected, |revisions| - 1 - i);
    }
  }
}
