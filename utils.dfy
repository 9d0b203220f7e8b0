/**
 * utils/utils.go: conversions between a list of strings and a Go
 * `map[string]bool` used as a set.
 */
module Utils {

  /** The distinct elements of a list. */
  function Elements<T>(list: seq<T>): set<T> {
    set x | x in list
  }

  lemma ElementsSnoc<T>(list: seq<T>, i: nat)
    requires i < |list|
    ensures Elements(list[..i + 1]) == Elements(list[..i]) + {list[i]}
  {
    assert list[..i + 1] == list[..i] + [list[i]];
  }

  /** `list` holds every element of `s` exactly once and nothing else, in some order. */
  ghost predicate ListsEachOnce<T(!new)>(list: seq<T>, s: set<T>) {
    forall x :: multiset(list)[x] == if x in s then 1 else 0
  }

  /** A list that holds each element of `s` exactly once has exactly `s` as its elements and |s| entries. */
  lemma {:induction false} ListsEachOnceSize<T(!new)>(list: seq<T>, s: set<T>)
    requires ListsEachOnce(list, s)
    ensures forall x :: x in list <==> x in s
    ensures |list| == |s|
  {
    assert forall x :: x in list <==> x in multiset(list);
    assert multiset(list) == multiset(s);
    assert |multiset(list)| == |list|;
    assert |multiset(s)| == |s|;
  }

  /** ArrayToMap: every element of `arr` becomes a key mapped to true. */
  method ArrayToMap(arr: seq<string>) returns (m: map<string, bool>)
    ensures m.Keys == Elements(arr)
    ensures forall k :: k in m ==> m[k]
  {
    m := map[];
    for i := 0 to |arr|
      invariant m.Keys == Elements(arr[..i])
      invariant forall k :: k in m ==> m[k]
    {
      ElementsSnoc(arr, i);
      m := m[arr[i] := true];
    }
    assert arr[..|arr|] == arr;
  }

  /** MapToArray: the keys of `m`, each exactly once, in Go's unspecified map order. */
  method MapToArray(m: map<string, bool>) returns (arr: seq<string>)
    ensures ListsEachOnce(arr, m.Keys)
    ensures |arr| == |m|
  {
    arr := MapOrder(m.Keys);
    ListsEachOnceSize(arr, m.Keys);
  }

  /**
   * Passing a list through ArrayToMap and then MapToArray removes the
   * duplicates: the result has the same elements as the list, each once.
   */
  lemma ArrayMapRoundTrip(arr: seq<string>, m: map<string, bool>, back: seq<string>)
    requires m.Keys == Elements(arr)
    requires ListsEachOnce(back, m.Keys)
    ensures forall x :: x in back <==> x in arr
    ensures forall i, j :: 0 <= i < j < |back| ==> back[i] != back[j]
  {
    ListsEachOnceSize(back, m.Keys);
    ListsEachOnceDistinct(back, m.Keys);
  }

  /** A list that holds each element of `s` exactly once has no element at two positions. */
  lemma ListsEachOnceDistinct<T(!new)>(list: seq<T>, s: set<T>)
    requires ListsEachOnce(list, s)
    ensures forall i, j :: 0 <= i < j < |list| ==> list[i] != list[j]
  {
    forall i, j | 0 <= i < j < |list|
      ensures list[i] != list[j]
    {
      if list[i] == list[j] {
        TwiceListed(list, i, j);
        assert false;
      }
    }
  }

  /** The elements of a list that holds each element of `s` exactly once are `s`. */
  lemma ListsEachOnceElements<T(!new)>(list: seq<T>, s: set<T>)
    requires ListsEachOnce(list, s)
    ensures Elements(list) == s
  {
    ListsEachOnceSize(list, s);
  }

  /** An element listed at two positions is counted at least twice. */
  lemma TwiceListed<T>(list: seq<T>, i: nat, j: nat)
    requires i < j < |list| && list[i] == list[j]
    ensures multiset(list)[list[i]] >= 2
  {
    var x := list[i];
    assert list == list[..i] + [x] + list[i + 1..j] + [x] + list[j + 1..];
  }

  /** The keys of a map in the order Go's `range` visits them: unspecified, each key once. */
  method MapOrder<T(!new)>(keys: set<T>) returns (order: seq<T>)
    ensures ListsEachOnce(order, keys)
  {
    order := [];
    var remaining := keys;
    while remaining != {}
      invariant remaining <= keys
      invariant forall x :: multiset(order)[x] == if x in keys - remaining then 1 else 0
      decreases remaining
    {
      var k :| k in remaining;
      order := order + [k];
      remaining := remaining - {k};
    }
  }

  /** The elements of `list` that are in `s`, in order. */
  function Filter<T>(list: seq<T>, s: set<T>): seq<T> {
    if list == [] then []
    else Filter(list[..|list| - 1], s) + (if list[|list| - 1] in s then [list[|list| - 1]] else [])
  }

  lemma FilterSnoc<T>(list: seq<T>, i: nat, s: set<T>)
    requires i < |list|
    ensures Filter(list[..i + 1], s) == Filter(list[..i], s) + (if list[i] in s then [list[i]] else [])
  {
    assert list[..i + 1][..i] == list[..i];
  }

  /** Filtering keeps the count of every element of `s` and drops every other element. */
  lemma {:induction false} FilterCounts<T(!new)>(list: seq<T>, s: set<T>)
    ensures forall x :: multiset(Filter(list, s))[x] == if x in s then multiset(list)[x] else 0
  {
    if list != [] {
      var init := list[..|list| - 1];
      var last := list[|list| - 1];
      FilterCounts(init, s);
      assert list == init + [last];
    }
  }

  /** Filtering a listing of `keys` by a subset of them lists exactly that subset. */
  lemma FilterListsEachOnce<T(!new)>(order: seq<T>, keys: set<T>, s: set<T>)
    requires ListsEachOnce(order, keys) && s <= keys
    ensures ListsEachOnce(Filter(order, s), s)
  {
    FilterCounts(order, s);
  }

  /** The union of `f(x)` over the elements `x` of `list`. */
  function UnionOver<T, U>(list: seq<T>, f: T -> set<U>): set<U> {
    if list == [] then {}
    else UnionOver(list[..|list| - 1], f) + f(list[|list| - 1])
  }

  lemma UnionOverSnoc<T, U>(list: seq<T>, i: nat, f: T -> set<U>)
    requires i < |list|
    ensures UnionOver(list[..i + 1], f) == UnionOver(list[..i], f) + f(list[i])
  {
    assert list[..i + 1][..i] == list[..i];
  }

  /** Something is in the union exactly when it is in `f(x)` for some element `x` of the list. */
  lemma {:induction false} UnionOverMembers<T, U>(list: seq<T>, f: T -> set<U>)
    ensures forall u :: u in UnionOver(list, f) <==> exists x :: x in list && u in f(x)
  {
    if list != [] {
      var init := list[..|list| - 1];
      UnionOverMembers(init, f);
      assert list == init + [list[|list| - 1]];
    }
  }
}
