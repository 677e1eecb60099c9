/** `Array.prototype.sort` with a comparator, which ECMAScript requires to be
    stable. A stable sort by a total preorder has exactly one possible result,
    so the model computes it by insertion: each element is placed before the
    first element that does not sort strictly before it. `le(a, b)` holds when
    the comparator does not put `b` strictly before `a` (`compare(a, b) <= 0`). */
module Sorting {

  /** `indexOf`: the first position holding `v`, or `|s|` when there is none. */
  function PositionOf<T(==)>(s: seq<T>, v: T): (p: nat)
    ensures p <= |s| && (p < |s| ==> s[p] == v)
    ensures forall i :: 0 <= i < p ==> s[i] != v
  {
    if s == [] then 0 else if s[0] == v then 0 else 1 + PositionOf(s[1..], v)
  }

  function Insert<T>(x: T, s: seq<T>, le: (T, T) -> bool): (r: seq<T>)
    ensures |r| == |s| + 1
    ensures multiset(r) == multiset(s) + multiset{x}
  {
    if s == [] || le(x, s[0]) then [x] + s
    else
      assert s == [s[0]] + s[1..];
      [s[0]] + Insert(x, s[1..], le)
  }

  function Sort<T>(s: seq<T>, le: (T, T) -> bool): (r: seq<T>)
    ensures |r| == |s|
    ensures multiset(r) == multiset(s)
  {
    if s == [] then []
    else
      assert s == [s[0]] + s[1..];
      Insert(s[0], Sort(s[1..], le), le)
  }

  ghost predicate TotalPreorder<T(!new)>(le: (T, T) -> bool)
  {
    (forall a, b :: le(a, b) || le(b, a))
    && (forall a, b, c :: le(a, b) && le(b, c) ==> le(a, c))
  }

  predicate Sorted<T>(s: seq<T>, le: (T, T) -> bool)
  {
    forall i, j :: 0 <= i < j < |s| ==> le(s[i], s[j])
  }

  lemma {:induction false} InsertSorted<T(!new)>(x: T, s: seq<T>, le: (T, T) -> bool)
    requires TotalPreorder(le) && Sorted(s, le)
    ensures Sorted(Insert(x, s, le), le)
  {
    if s != [] && !le(x, s[0]) {
      var rest := Insert(x, s[1..], le);
      InsertSorted(x, s[1..], le);
      forall j | 0 <= j < |rest|
        ensures le(s[0], rest[j])
      {
        assert rest[j] in multiset(rest);
        assert rest[j] == x || rest[j] in multiset(s[1..]);
        if rest[j] != x {
          var k :| 0 <= k < |s[1..]| && s[1..][k] == rest[j];
          assert s[k + 1] == rest[j];
        }
      }
      assert Insert(x, s, le) == [s[0]] + rest;
    }
  }

  /** Under a total preorder the result is ordered. */
  lemma {:induction false} SortSorted<T(!new)>(s: seq<T>, le: (T, T) -> bool)
    requires TotalPreorder(le)
    ensures Sorted(Sort(s, le), le)
  {
    if s != [] {
      SortSorted(s[1..], le);
      InsertSorted(s[0], Sort(s[1..], le), le);
    }
  }

  function MapSeq<A, B>(f: A -> B, s: seq<A>): (r: seq<B>)
    ensures |r| == |s|
    ensures forall i :: 0 <= i < |s| ==> r[i] == f(s[i])
  {
    if s == [] then [] else [f(s[0])] + MapSeq(f, s[1..])
  }

  lemma {:induction false} InsertMap<A, B>(f: A -> B, x: A, s: seq<A>, leA: (A, A) -> bool, leB: (B, B) -> bool)
    requires forall a, b :: leA(a, b) == leB(f(a), f(b))
    ensures Insert(f(x), MapSeq(f, s), leB) == MapSeq(f, Insert(x, s, leA))
  {
    if s != [] && !leA(x, s[0]) {
      InsertMap(f, x, s[1..], leA, leB);
      assert MapSeq(f, s)[1..] == MapSeq(f, s[1..]);
    }
  }

  /** Sorting commutes with a map that preserves the comparison; so sorting
      indices by a key of the items they point at puts the items in the same
      order as sorting the items themselves by that key. */
  lemma {:induction false} SortMap<A, B>(f: A -> B, s: seq<A>, leA: (A, A) -> bool, leB: (B, B) -> bool)
    requires forall a, b :: leA(a, b) == leB(f(a), f(b))
    ensures Sort(MapSeq(f, s), leB) == MapSeq(f, Sort(s, leA))
  {
    if s != [] {
      SortMap(f, s[1..], leA, leB);
      assert MapSeq(f, s)[1..] == MapSeq(f, s[1..]);
      InsertMap(f, s[0], Sort(s[1..], leA), leA, leB);
    }
  }

  predicate Distinct<T(==)>(s: seq<T>)
  {
    forall i, j :: 0 <= i < j < |s| ==> s[i] != s[j]
  }

  /** A permutation of a sequence without repetitions has none either. */
  lemma {:induction false} SortDistinct<T>(s: seq<T>, le: (T, T) -> bool)
    requires Distinct(s)
    ensures Distinct(Sort(s, le))
  {
    if s != [] {
      SortDistinct(s[1..], le);
      assert s[0] !in s[1..];
      assert s[0] !in multiset(Sort(s[1..], le));
      InsertDistinct(s[0], Sort(s[1..], le), le);
    }
  }

  lemma {:induction false} InsertDistinct<T>(x: T, s: seq<T>, le: (T, T) -> bool)
    requires Distinct(s) && x !in s
    ensures Distinct(Insert(x, s, le))
  {
    if s != [] && !le(x, s[0]) {
      var rest := Insert(x, s[1..], le);
      InsertDistinct(x, s[1..], le);
      forall j | 0 <= j < |rest|
        ensures rest[j] != s[0]
      {
        assert rest[j] in multiset(rest);
      }
      assert Insert(x, s, le) == [s[0]] + rest;
    }
  }
}
