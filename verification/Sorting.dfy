/** Stable sorting by an integer key. */
module Sorting {
  function Insert<T>(key: T -> int, sorted: seq<T>, x: T): seq<T>
    decreases |sorted|
  {
    if sorted == [] then [x]
    else
      var n := |sorted| - 1;
      if key(sorted[n]) <= key(x) then sorted + [x] else Insert(key, sorted[..n], x) + [sorted[n]]
  }

  function Sort<T>(key: T -> int, s: seq<T>): seq<T>
    decreases |s|
  {
    if s == [] then [] else Insert(key, Sort(key, s[..|s| - 1]), s[|s| - 1])
  }

  ghost predicate Ordered<T>(key: T -> int, s: seq<T>)
    decreases |s|
  {
    var n := |s|;
    n > 1 ==> Ordered(key, s[..n - 1]) && key(s[n - 2]) <= key(s[n - 1])
  }

  lemma {:induction false} InsertOrdered<T>(key: T -> int, sorted: seq<T>, x: T)
    requires Ordered(key, sorted)
    ensures Ordered(key, Insert(key, sorted, x)) && multiset(Insert(key, sorted, x)) == multiset(sorted) + multiset{x}
    ensures var r := Insert(key, sorted, x);
            r[|r| - 1] == x || (sorted != [] && r[|r| - 1] == sorted[|sorted| - 1] && key(x) < key(r[|r| - 1]))
    decreases |sorted|
  {
    if sorted != [] {
      var n := |sorted| - 1;
      assert sorted == sorted[..n] + [sorted[n]];
      if key(sorted[n]) <= key(x) {
        assert (sorted + [x])[..|sorted|] == sorted;
      } else {
        InsertOrdered(key, sorted[..n], x);
        var r := Insert(key, sorted[..n], x);
        assert (r + [sorted[n]])[..|r|] == r;
      }
    }
  }

  lemma {:induction false} SortOrdered<T>(key: T -> int, s: seq<T>)
    ensures Ordered(key, Sort(key, s)) && multiset(Sort(key, s)) == multiset(s)
    decreases |s|
  {
    if s != [] {
      var n := |s| - 1;
      assert s == s[..n] + [s[n]];
      SortOrdered(key, s[..n]);
      InsertOrdered(key, Sort(key, s[..n]), s[n]);
    }
  }
}
