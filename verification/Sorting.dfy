/** Sequences in strict order: the library sorts, for elements of which no two are equal in the order. */
module Sorting {

  ghost predicate Sorted<T(!new)>(s: seq<T>, less: (T, T) -> bool) {
    forall i, j | 0 <= i < j < |s| :: less(s[i], s[j])
  }

  ghost predicate Strict<T(!new)>(less: (T, T) -> bool) {
    && (forall x, y | less(x, y) :: !less(y, x))
    && (forall x, y, z | less(x, y) && less(y, z) :: less(x, z))
  }

  /** A set of elements can be put in order in only one way. */
  lemma {:induction false} SortedIsUnique<T(!new)>(s: seq<T>, t: seq<T>, less: (T, T) -> bool)
    requires Strict(less) && Sorted(s, less) && Sorted(t, less)
    requires forall x :: x in s <==> x in t
    ensures s == t
  {
    assert s != [] ==> s[0] in t;
    assert t != [] ==> t[0] in s;
    if s != [] && t != [] {
      var i :| 0 <= i < |t| && t[i] == s[0];
      var j :| 0 <= j < |s| && s[j] == t[0];
      SortedTail(s, less);
      SortedTail(t, less);
      SortedIsUnique(s[1..], t[1..], less);
    }
  }

  lemma SortedTail<T(!new)>(s: seq<T>, less: (T, T) -> bool)
    requires s != [] && Strict(less) && Sorted(s, less)
    ensures Sorted(s[1..], less)
    ensures forall x | x in s[1..] :: less(s[0], x)
    ensures forall x :: x in s[1..] <==> x in s && x != s[0]
  {
    forall x | x in s[1..] ensures less(s[0], x) && x != s[0] {
      var i :| 0 <= i < |s[1..]| && s[1..][i] == x;
      assert less(s[0], s[i + 1]);
    }
    forall x | x in s && x != s[0] ensures x in s[1..] {
      var i :| 0 <= i < |s| && s[i] == x;
      assert s[1..][i - 1] == x;
    }
  }

  lemma SortedCons<T(!new)>(x: T, s: seq<T>, less: (T, T) -> bool)
    requires Sorted(s, less) && forall y | y in s :: less(x, y)
    ensures Sorted([x] + s, less)
  {
    forall j | 0 <= j < |s| ensures less(x, s[j]) {
      assert s[j] in s;
    }
  }

  /** Places x among elements it can be compared with. */
  function InsertInOrder<T(!new)>(x: T, s: seq<T>, less: (T, T) -> bool): (r: seq<T>)
    requires Strict(less) && Sorted(s, less)
    requires forall y | y in s :: less(x, y) || less(y, x)
    ensures Sorted(r, less) && |r| == |s| + 1
    ensures forall y :: y in r <==> y == x || y in s
  {
    if s == [] then [x]
    else
      SortedTail(s, less);
      if less(x, s[0]) then
        SortedCons(x, s, less);
        [x] + s
      else
        var rest := InsertInOrder(x, s[1..], less);
        SortedCons(s[0], rest, less);
        [s[0]] + rest
  }
}
