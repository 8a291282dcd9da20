/** Shared vocabulary: an optional value, and the list operations the store's
    reducer is built from (JavaScript's `filter`, `map` by id and `find` by id). */
module Common {

  /** JavaScript's `undefined`-or-value, as used by every optional field. */
  datatype Option<+T> = None | Some(value: T) {

    /** The `??` operator: the value when present, `default` otherwise. */
    function GetOr(default: T): T {
      match this
      case Some(v) => v
      case None => default
    }
  }

  /** `r` can be obtained from `xs` by deleting elements, without reordering. */
  ghost predicate IsSubsequence<T>(r: seq<T>, xs: seq<T>)
    decreases |xs|
  {
    if r == [] then true
    else if xs == [] then false
    else (r[0] == xs[0] && IsSubsequence(r[1..], xs[1..])) || IsSubsequence(r, xs[1..])
  }

  /** `xs.filter(p)`: the elements satisfying `p`, in their original order. */
  function Filter<T(==,!new)>(xs: seq<T>, p: T -> bool): (r: seq<T>)
    ensures |r| <= |xs|
    ensures forall x :: x in r <==> x in xs && p(x)
    decreases |xs|
  {
    if xs == [] then []
    else
      assert forall x :: x in xs <==> x == xs[0] || x in xs[1..];
      (if p(xs[0]) then [xs[0]] else []) + Filter(xs[1..], p)
  }

  /** A filter keeps each accepted element as often as it occurs and drops
      every rejected one. */
  lemma {:induction false} FilterMultiset<T(!new)>(xs: seq<T>, p: T -> bool)
    ensures forall x :: multiset(Filter(xs, p))[x] == if p(x) then multiset(xs)[x] else 0
    decreases |xs|
  {
    if xs != [] {
      FilterMultiset(xs[1..], p);
      assert xs == [xs[0]] + xs[1..];
    }
  }

  /** A filter never reorders. */
  lemma {:induction false} FilterSubsequence<T(!new)>(xs: seq<T>, p: T -> bool)
    ensures IsSubsequence(Filter(xs, p), xs)
    decreases |xs|
  {
    if xs != [] {
      FilterSubsequence(xs[1..], p);
      var rest := Filter(xs[1..], p);
      if p(xs[0]) {
        var r := [xs[0]] + rest;
        assert Filter(xs, p) == r;
        assert r[0] == xs[0] && r[1..] == rest;
      } else {
        assert Filter(xs, p) == rest;
        assert rest != [] ==> IsSubsequence(rest, xs[1..]);
      }
    }
  }

  /** A filter that rejects nothing returns its input unchanged. */
  lemma {:induction false} FilterKeepsAll<T(!new)>(xs: seq<T>, p: T -> bool)
    requires forall x :: x in xs ==> p(x)
    ensures Filter(xs, p) == xs
    decreases |xs|
  {
    if xs != [] {
      FilterKeepsAll(xs[1..], p);
    }
  }

  /** A filter that accepts nothing returns the empty list. */
  lemma FilterKeepsNone<T(!new)>(xs: seq<T>, p: T -> bool)
    requires forall x :: x in xs ==> !p(x)
    ensures Filter(xs, p) == []
  {
  }

  /** Filtering a list with an element in front. */
  lemma FilterCons<T(!new)>(x: T, xs: seq<T>, p: T -> bool)
    ensures Filter([x] + xs, p) == (if p(x) then [x] else []) + Filter(xs, p)
  {
    assert ([x] + xs)[1..] == xs;
  }

  /** Filtering a list with an element at the back. */
  lemma {:induction false} FilterSnoc<T(!new)>(xs: seq<T>, x: T, p: T -> bool)
    ensures Filter(xs + [x], p) == Filter(xs, p) + (if p(x) then [x] else [])
    decreases |xs|
  {
    if xs == [] {
      assert [] + [x] == [x];
      FilterCons(x, [], p);
    } else {
      var head: seq<T> := if p(xs[0]) then [xs[0]] else [];
      var tail: seq<T> := if p(x) then [x] else [];
      calc {
        Filter(xs + [x], p);
        { assert xs + [x] == [xs[0]] + (xs[1..] + [x]); }
        Filter([xs[0]] + (xs[1..] + [x]), p);
        { FilterCons(xs[0], xs[1..] + [x], p); }
        head + Filter(xs[1..] + [x], p);
        { FilterSnoc(xs[1..], x, p); }
        head + (Filter(xs[1..], p) + tail);
        head + Filter(xs[1..], p) + tail;
        { FilterCons(xs[0], xs[1..], p); assert [xs[0]] + xs[1..] == xs; }
        Filter(xs, p) + tail;
      }
    }
  }

  /** Filtering twice is filtering once by the conjunction. */
  lemma {:induction false} FilterFilter<T(!new)>(xs: seq<T>, p: T -> bool, q: T -> bool, pq: T -> bool)
    requires forall x :: pq(x) == (p(x) && q(x))
    ensures Filter(Filter(xs, p), q) == Filter(xs, pq)
    decreases |xs|
  {
    if xs != [] {
      FilterFilter(xs[1..], p, q, pq);
      var x := xs[0];
      assert pq(x) == (p(x) && q(x));
      if p(x) {
        assert Filter(xs, p) == [x] + Filter(xs[1..], p);
        FilterCons(x, Filter(xs[1..], p), q);
      } else {
        assert Filter(xs, p) == Filter(xs[1..], p);
      }
    }
  }

  /** `xs.filter(x => key(x) !== id)`: the `DELETE_*` actions. */
  function Without<T(==,!new)>(xs: seq<T>, key: T -> string, id: string): (r: seq<T>)
    ensures forall x :: x in r ==> key(x) != id
    ensures forall x :: x in xs && key(x) != id ==> multiset(r)[x] == multiset(xs)[x]
    ensures IsSubsequence(r, xs)
    ensures (forall x :: x in xs ==> key(x) != id) ==> r == xs
  {
    var keep := (x: T) => key(x) != id;
    FilterMultiset(xs, keep);
    FilterSubsequence(xs, keep);
    if forall x :: x in xs ==> key(x) != id then
      FilterKeepsAll(xs, keep);
      Filter(xs, keep)
    else
      Filter(xs, keep)
  }

  /** `xs.map(x => key(x) === key(p) ? p : x)`: the `UPDATE_*` actions. */
  function ReplaceById<T>(xs: seq<T>, key: T -> string, p: T): (r: seq<T>)
    ensures |r| == |xs|
    ensures forall i :: 0 <= i < |xs| ==> key(r[i]) == key(xs[i])
    ensures forall i :: 0 <= i < |xs| && key(xs[i]) == key(p) ==> r[i] == p
    ensures forall i :: 0 <= i < |xs| && key(xs[i]) != key(p) ==> r[i] == xs[i]
    decreases |xs|
  {
    if xs == [] then []
    else [if key(xs[0]) == key(p) then p else xs[0]] + ReplaceById(xs[1..], key, p)
  }

  /** `xs.find(x => key(x) === id)`: the first element with that key, if any. */
  function FindById<T(==,!new)>(xs: seq<T>, key: T -> string, id: string): (r: Option<T>)
    ensures r.None? <==> forall x :: x in xs ==> key(x) != id
    ensures r.Some? ==> exists i :: 0 <= i < |xs| && xs[i] == r.value && key(r.value) == id &&
                                    forall j :: 0 <= j < i ==> key(xs[j]) != id
    decreases |xs|
  {
    if xs == [] then None
    else if key(xs[0]) == id then Some(xs[0])
    else
      var r := FindById(xs[1..], key, id);
      assert forall x :: x in xs[1..] ==> x in xs;
      assert forall x :: x in xs ==> x == xs[0] || x in xs[1..];
      if r.Some? then
        var i :| 0 <= i < |xs[1..]| && xs[1..][i] == r.value && key(r.value) == id &&
                 forall j :: 0 <= j < i ==> key(xs[1..][j]) != id;
        assert xs[i + 1] == r.value;
        assert forall j :: 0 <= j < i + 1 ==> key(xs[j]) != id by {
          forall j | 0 <= j < i + 1 ensures key(xs[j]) != id {
            if j > 0 { assert xs[j] == xs[1..][j - 1]; }
          }
        }
        r
      else
        r
  }

  /** After an update by id, looking the id up yields the payload exactly
      when the id was present before; the update never invents an entry. */
  lemma {:induction false} FindAfterReplace<T(!new)>(xs: seq<T>, key: T -> string, p: T)
    ensures FindById(ReplaceById(xs, key, p), key, key(p)) ==
            if exists x :: x in xs && key(x) == key(p) then Some(p) else None
    decreases |xs|
  {
    if xs != [] {
      FindAfterReplace(xs[1..], key, p);
      var r := ReplaceById(xs, key, p);
      assert r[1..] == ReplaceById(xs[1..], key, p);
      assert forall x :: x in xs ==> x == xs[0] || x in xs[1..];
    }
  }

  /** Looking up the id of an element appended with a fresh id finds it. */
  lemma {:induction false} FindAppended<T(!new)>(xs: seq<T>, key: T -> string, x: T)
    requires forall y :: y in xs ==> key(y) != key(x)
    ensures FindById(xs + [x], key, key(x)) == Some(x)
    decreases |xs|
  {
    if xs != [] {
      assert (xs + [x])[1..] == xs[1..] + [x];
      FindAppended(xs[1..], key, x);
    }
  }

  /** Updating with a payload whose id is absent leaves the list as it was. */
  lemma ReplaceAbsent<T>(xs: seq<T>, key: T -> string, p: T)
    requires forall x :: x in xs ==> key(x) != key(p)
    ensures ReplaceById(xs, key, p) == xs
  {
    var r := ReplaceById(xs, key, p);
    assert forall i :: 0 <= i < |xs| ==> xs[i] in xs;
  }
}
