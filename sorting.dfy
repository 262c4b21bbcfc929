/**
 * `list.sort(key=..., reverse=True)`: a stable sort into non-increasing key
 * order, used for session files (by modification time) and search hits (by score).
 */
module Sorting {

  ghost predicate SortedDesc<T>(s: seq<T>, key: T -> real) {
    forall i, j :: 0 <= i < j < |s| ==> key(s[i]) >= key(s[j])
  }

  /** Places `x` after every element whose key is at least its own. */
  function Insert<T>(s: seq<T>, x: T, key: T -> real): (r: seq<T>)
    requires SortedDesc(s, key)
    ensures SortedDesc(r, key)
    ensures multiset(r) == multiset(s) + multiset{x}
  {
    if s == [] then [x]
    else if key(s[0]) >= key(x) then
      var rest := Insert(s[1..], x, key);
      KeepHead(s, x, rest, key);
      [s[0]] + rest
    else
      PrependLarger(x, s, key);
      [x] + s
  }

  /** The head of a sorted sequence stays in front of the insertion into its tail. */
  lemma KeepHead<T>(s: seq<T>, x: T, rest: seq<T>, key: T -> real)
    requires s != [] && SortedDesc(s, key) && key(s[0]) >= key(x)
    requires SortedDesc(rest, key) && multiset(rest) == multiset(s[1..]) + multiset{x}
    ensures SortedDesc([s[0]] + rest, key)
    ensures multiset([s[0]] + rest) == multiset(s) + multiset{x}
  {
    forall k | 0 <= k < |rest| ensures key(s[0]) >= key(rest[k]) {
      assert rest[k] in multiset(rest);
      if rest[k] != x {
        assert rest[k] in multiset(s[1..]);
        var j :| 0 <= j < |s[1..]| && s[1..][j] == rest[k];
        assert s[j + 1] == rest[k];
      }
    }
    assert s == [s[0]] + s[1..];
  }

  /** An element at least as large as the first of a sorted sequence can go in front of it. */
  lemma PrependLarger<T>(x: T, s: seq<T>, key: T -> real)
    requires SortedDesc(s, key) && (s == [] || key(x) >= key(s[0]))
    ensures SortedDesc([x] + s, key)
  {
  }

  /** Sorts by inserting the elements in their original order, which keeps ties stable. */
  function SortDesc<T>(s: seq<T>, key: T -> real): (r: seq<T>)
    ensures SortedDesc(r, key)
    ensures multiset(r) == multiset(s)
  {
    if s == [] then []
    else
      assert s == s[..|s| - 1] + [s[|s| - 1]];
      Insert(SortDesc(s[..|s| - 1], key), s[|s| - 1], key)
  }
}
