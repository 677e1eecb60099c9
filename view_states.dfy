/** The development UI's store of named view states: a list of entries, each a
    name, a version counter and a view state, with reducers that add, update
    and remove an entry by name, selectors that look entries up, and the thunks
    that compute the next version before dispatching an update. The view state
    itself is a type parameter; the VR changes of `VrStateChange` are one kind
    of modifier. */
module ViewStates {
  import opened Wrappers
  import opened Strings
  import opened Sorting

  datatype NamedViewState<V> = NamedViewState(name: string, version: int, viewState: V)

  predicate HasName<V>(c: seq<NamedViewState<V>>, name: string)
  {
    exists i :: 0 <= i < |c| && c[i].name == name
  }

  predicate UniqueNames<V>(c: seq<NamedViewState<V>>)
  {
    forall i, j :: 0 <= i < j < |c| ==> c[i].name != c[j].name
  }

  /** `findIndex` by name: the first matching entry, or -1. */
  function FindIndex<V>(c: seq<NamedViewState<V>>, name: string): (i: int)
    ensures -1 <= i < |c|
    ensures i >= 0 ==> c[i].name == name && forall j :: 0 <= j < i ==> c[j].name != name
    ensures i == -1 <==> !HasName(c, name)
  {
    if c == [] then -1
    else if c[0].name == name then 0
    else
      var k := FindIndex(c[1..], name);
      if k == -1 then
        assert forall j :: 1 <= j < |c| ==> c[j].name == c[1..][j - 1].name;
        -1
      else k + 1
  }

  /** `find` by name (`createNamedStateSelector`). */
  function FindEntry<V>(c: seq<NamedViewState<V>>, name: string): (r: Option<NamedViewState<V>>)
    ensures r.Some? <==> HasName(c, name)
    ensures r.Some? ==> r.value.name == name && r.value in c
  {
    var i := FindIndex(c, name);
    if i == -1 then None else Some(c[i])
  }

  /** `selectNamedState`: as `find`, but the empty name finds nothing. */
  function SelectNamedState<V>(c: seq<NamedViewState<V>>, name: string): (r: Option<NamedViewState<V>>)
    ensures name == "" ==> r.None?
    ensures name != "" ==> r == FindEntry(c, name)
  {
    if name == "" then None else FindEntry(c, name)
  }

  // ---------------------------------------------------------------------------
  // The reducers, as functions of the collection

  function Initialized<V>(c: seq<NamedViewState<V>>, name: string, viewState: V): (r: seq<NamedViewState<V>>)
    ensures name == "" || HasName(c, name) ==> r == c
    ensures name != "" && !HasName(c, name) ==> r == c + [NamedViewState(name, 0, viewState)]
  {
    if name == "" || HasName(c, name) then c else c + [NamedViewState(name, 0, viewState)]
  }

  /** The update reducer changes the version and view state of the named entry
      only, and only when the view state differs; no entry is added, removed or
      renamed. */
  function Updated<V(==)>(c: seq<NamedViewState<V>>, name: string, viewState: V, version: int): (r: seq<NamedViewState<V>>)
    ensures |r| == |c| && forall j :: 0 <= j < |c| ==> r[j].name == c[j].name
    ensures UniqueNames(c) ==> UniqueNames(r)
    ensures name == "" || !HasName(c, name) ==> r == c
    ensures name != "" && HasName(c, name) ==>
      var i := FindIndex(c, name);
      (forall j :: 0 <= j < |c| && j != i ==> r[j] == c[j])
      && (c[i].viewState == viewState ==> r == c)
      && (c[i].viewState != viewState ==> r[i].viewState == viewState && r[i].version == version)
  {
    if name == "" then c
    else
      var i := FindIndex(c, name);
      if i != -1 && c[i].viewState != viewState then c[i := NamedViewState(name, version, viewState)] else c
  }

  /** The dispose reducer removes at most one entry and keeps the rest in order. */
  function Disposed<V>(c: seq<NamedViewState<V>>, name: string): (r: seq<NamedViewState<V>>)
    ensures name == "" || !HasName(c, name) ==> r == c
    ensures name != "" && HasName(c, name) ==>
      var i := FindIndex(c, name);
      c[i].name == name && r == c[..i] + c[i + 1..]
  {
    if name == "" then c
    else
      var i := FindIndex(c, name);
      if -1 < i then c[..i] + c[i + 1..] else c
  }

  /** Initialising keeps the names unique and leaves a non-empty name present. */
  lemma InitializedKeepsNamesUnique<V>(c: seq<NamedViewState<V>>, name: string, viewState: V)
    requires UniqueNames(c)
    ensures UniqueNames(Initialized(c, name, viewState))
    ensures name != "" ==> HasName(Initialized(c, name, viewState), name)
  {
    var r := Initialized(c, name, viewState);
    if name != "" && !HasName(c, name) {
      assert r[|c|].name == name;
    }
  }

  /** Disposing removes the named entry and keeps the others in their order. */
  lemma {:induction false} DisposedRemovesEntry<V>(c: seq<NamedViewState<V>>, name: string)
    requires UniqueNames(c)
    ensures var r := Disposed(c, name);
      UniqueNames(r)
      && (name != "" ==> !HasName(r, name))
      && (forall n :: n != name ==> (HasName(r, n) <==> HasName(c, n)))
      && (name != "" && HasName(c, name) ==> |r| == |c| - 1)
      && (name == "" || !HasName(c, name) ==> r == c)
  {
    var r := Disposed(c, name);
    if name != "" && HasName(c, name) {
      var i := FindIndex(c, name);
      assert forall j :: 0 <= j < |r| ==> r[j] == if j < i then c[j] else c[j + 1];
      forall n | n != name
        ensures HasName(r, n) <==> HasName(c, n)
      {
        if HasName(c, n) {
          var k :| 0 <= k < |c| && c[k].name == n;
          assert k != i;
          if k < i { assert r[k].name == n; } else { assert r[k - 1].name == n; }
        }
      }
    }
  }

  // ---------------------------------------------------------------------------
  // Selecting the names

  /** `filter((v, i, a) => i === a.indexOf(v))` over the first `k` positions. */
  function FirstOccurrences(a: seq<string>, k: nat): (r: seq<string>)
    requires k <= |a|
  {
    if k == 0 then []
    else FirstOccurrences(a, k - 1) + (if PositionOf(a, a[k - 1]) == k - 1 then [a[k - 1]] else [])
  }

  lemma {:induction false} FirstOccurrencesDistinct(a: seq<string>, k: nat)
    requires k <= |a|
    ensures Distinct(FirstOccurrences(a, k))
    ensures forall v :: v in FirstOccurrences(a, k) <==> exists i :: 0 <= i < k && a[i] == v
  {
    if k > 0 {
      FirstOccurrencesDistinct(a, k - 1);
      var v := a[k - 1];
      var p := PositionOf(a, v);
      if p == k - 1 {
        assert v !in FirstOccurrences(a, k - 1);
      } else {
        assert p < k - 1;
      }
    }
  }

  function Names<V>(c: seq<NamedViewState<V>>): (r: seq<string>)
    ensures |r| == |c| && forall i :: 0 <= i < |c| ==> r[i] == c[i].name
  {
    seq(|c|, i requires 0 <= i < |c| => c[i].name)
  }

  /** `stateNamesSelector`: the names without repetitions, in the order of
      `Array.prototype.sort` (UTF-16 code units); they are distinct, sorted,
      and exactly the names present. */
  function StateNames<V>(c: seq<NamedViewState<V>>): (r: seq<string>)
    ensures Distinct(r) && forall i, j :: 0 <= i < j < |r| ==> LessEq(r[i], r[j])
    ensures forall n :: n in r <==> HasName(c, n)
  {
    SortedNamesDistinct(c);
    Sort(FirstOccurrences(Names(c), |c|), (a, b) => LessEq(a, b))
  }

  lemma LessEqTotalPreorder()
    ensures TotalPreorder((a: string, b: string) => LessEq(a, b))
  {
    forall a: string, b: string
      ensures LessEq(a, b) || LessEq(b, a)
    {
      LessEqTotal(a, b);
    }
    forall a: string, b: string, c: string | LessEq(a, b) && LessEq(b, c)
      ensures LessEq(a, c)
    {
      LessEqTransitive(a, b, c);
    }
  }

  lemma SortedNamesDistinct<V>(c: seq<NamedViewState<V>>)
    ensures var r := Sort(FirstOccurrences(Names(c), |c|), (a, b) => LessEq(a, b));
      Distinct(r) && (forall i, j :: 0 <= i < j < |r| ==> LessEq(r[i], r[j]))
      && forall n :: n in r <==> HasName(c, n)
  {
    var le := (a: string, b: string) => LessEq(a, b);
    var u := FirstOccurrences(Names(c), |c|);
    FirstOccurrencesDistinct(Names(c), |c|);
    SortDistinct(u, le);
    LessEqTotalPreorder();
    SortSorted(u, le);
    var r := Sort(u, le);
    forall n
      ensures n in r <==> HasName(c, n)
    {
      assert n in r <==> n in multiset(r);
      assert n in u <==> n in multiset(u);
      if HasName(c, n) {
        var i :| 0 <= i < |c| && c[i].name == n;
        assert Names(c)[i] == n;
      }
    }
  }

  // ---------------------------------------------------------------------------
  // The version a thunk computes

  /** The next version when none is given: one more than the current one when
      that is non-zero, and 1 otherwise (also when the entry is missing). */
  function NextVersion<V>(current: Option<NamedViewState<V>>): (v: int)
    ensures current.Some? && current.value.version != 0 ==> v == current.value.version + 1
    ensures current.None? || current.value.version == 0 ==> v == 1
  {
    if current.Some? && current.value.version != 0 then current.value.version + 1 else 1
  }

  /** With non-negative versions, the next version is positive and above the
      current one. */
  lemma NextVersionAdvances<V>(current: Option<NamedViewState<V>>)
    requires current.Some? ==> current.value.version >= 0
    ensures NextVersion(current) >= 1
    ensures current.Some? ==> NextVersion(current) > current.value.version
  {
  }

  /** `registerViewState` on the collection. */
  function Registered<V(==)>(c: seq<NamedViewState<V>>, name: string, viewState: V): seq<NamedViewState<V>>
  {
    var current := SelectNamedState(c, name);
    if current.Some? then Updated(c, name, viewState, current.value.version + 1)
    else Initialized(c, name, viewState)
  }

  /** After registering, a non-empty name is present with the given view state,
      and the names stay unique. */
  lemma RegisteredHoldsState<V>(c: seq<NamedViewState<V>>, name: string, viewState: V)
    requires UniqueNames(c) && name != ""
    ensures var r := Registered(c, name, viewState);
      UniqueNames(r) && HasName(r, name) && r[FindIndex(r, name)].viewState == viewState
  {
    var r := Registered(c, name, viewState);
    if HasName(c, name) {
      assert FindIndex(r, name) == FindIndex(c, name);
    } else {
      InitializedKeepsNamesUnique(c, name, viewState);
      assert r[|c|].name == name;
      assert FindIndex(r, name) == |c|;
    }
  }

  // ---------------------------------------------------------------------------
  // The store

  class ViewStateStore<V(==)> {
    var collection: seq<NamedViewState<V>>

    constructor()
      ensures collection == []
    {
      collection := [];
    }

    /** The `initializeViewState` reducer. */
    method InitializeViewState(name: string, viewState: V)
      modifies this
      ensures collection == Initialized(old(collection), name, viewState)
    {
      if name == "" || FindIndex(collection, name) != -1 {
        return;
      }
      collection := collection + [NamedViewState(name, 0, viewState)];
    }

    /** The `updateViewState` reducer. */
    method UpdateViewStateReducer(name: string, viewState: V, version: int)
      modifies this
      ensures collection == Updated(old(collection), name, viewState, version)
    {
      if name == "" {
        return;
      }
      var foundIndex := FindIndex(collection, name);
      if -1 != foundIndex && collection[foundIndex].viewState != viewState {
        collection := collection[foundIndex := collection[foundIndex].(viewState := viewState, version := version)];
      }
    }

    /** The `disposeViewState` reducer. */
    method DisposeViewState(name: string)
      modifies this
      ensures collection == Disposed(old(collection), name)
    {
      if name == "" {
        return;
      }
      var foundIndex := FindIndex(collection, name);
      if -1 < foundIndex {
        collection := collection[..foundIndex] + collection[foundIndex + 1..];
      }
    }

    /** The `updateViewState` thunk: without a version it takes the next one. */
    method UpdateViewState(name: string, viewState: V, version: Option<int>)
      modifies this
      ensures collection == Updated(old(collection), name, viewState,
                                    if version.Some? then version.value else NextVersion(SelectNamedState(old(collection), name)))
    {
      var v: int;
      if version.None? {
        var namedState := SelectNamedState(collection, name);
        v := if namedState.Some? && namedState.value.version != 0 then namedState.value.version + 1 else 1;
      } else {
        v := version.value;
      }
      UpdateViewStateReducer(name, viewState, v);
    }

    /** The `registerViewState` thunk. */
    method RegisterViewState(name: string, viewState: V)
      modifies this
      ensures collection == Registered(old(collection), name, viewState)
    {
      var currentViewState := SelectNamedState(collection, name);
      if currentViewState.Some? {
        UpdateViewStateReducer(name, viewState, currentViewState.value.version + 1);
      } else {
        InitializeViewState(name, viewState);
      }
    }

    /** The thunk made by `createViewStateModifier(name)`: applies `modifier` to
        the named state and dispatches the result with the next version. An
        unknown name has no state to modify and fails. */
    method ModifyViewState(name: string, modifier: V -> V) returns (r: Outcome<string>)
      modifies this
      ensures r.Fail? <==> !HasName(old(collection), name)
      ensures r.Fail? ==> collection == old(collection)
      ensures r.Pass? ==>
        var current := FindEntry(old(collection), name).value;
        collection == Updated(old(collection), name, modifier(current.viewState), current.version + 1)
    {
      var currentNamedState := FindEntry(collection, name);
      if currentNamedState.None? {
        return Fail("cannot read properties of undefined");
      }
      var viewState := modifier(currentNamedState.value.viewState);
      UpdateViewStateReducer(name, viewState, currentNamedState.value.version + 1);
      r := Pass;
    }
  }
}
