/** Sequence slicing and ordering notions shared by the text, ledger and retrieval modules. */
module Seqs {

  predicate StartsWith<T(==)>(s: seq<T>, prefix: seq<T>) {
    |prefix| <= |s| && s[..|prefix|] == prefix
  }

  /** Extending a sequence keeps its prefixes. */
  lemma StartsWithExtend<T>(s: seq<T>, extra: seq<T>, prefix: seq<T>)
    requires StartsWith(s, prefix)
    ensures StartsWith(s + extra, prefix)
  {
    assert (s + extra)[..|prefix|] == s[..|prefix|];
  }

  /** A non-empty sequence is its front followed by its last element. */
  lemma FrontAndLast<T>(s: seq<T>)
    requires s != []
    ensures s[..|s| - 1] + [s[|s| - 1]] == s
  {
  }

  /** Appending a non-empty sequence is appending its front, then its last element. */
  lemma AppendFrontAndLast<T>(a: seq<T>, b: seq<T>)
    requires b != []
    ensures a + b == (a + b[..|b| - 1]) + [b[|b| - 1]]
  {
    FrontAndLast(b);
  }

  /** A prefix one longer is the shorter prefix and the next element. */
  lemma PrefixSnoc<T>(s: seq<T>, i: nat)
    requires i < |s|
    ensures s[..i + 1] == s[..i] + [s[i]]
  {
  }

  /** A sequence starts with what it was built from. */
  lemma PrefixOfAppend<T>(a: seq<T>, b: seq<T>)
    ensures StartsWith(a + b, a)
  {
    assert (a + b)[..|a|] == a;
  }

  /** `s[:n]` for n >= 0 */
  function Take<T>(s: seq<T>, n: nat): (r: seq<T>)
    ensures |r| <= n && |r| <= |s| && r == s[..|r|]
    ensures |s| <= n ==> r == s
    ensures |s| > n ==> |r| == n
  {
    if |s| <= n then s else s[..n]
  }

  /** `a` is obtained from `b` by deleting elements, keeping the order of the rest. */
  predicate IsSubsequence<T(==)>(a: seq<T>, b: seq<T>)
    decreases |b|
  {
    a == [] || (b != [] && if a[0] == b[0] then IsSubsequence(a[1..], b[1..]) else IsSubsequence(a, b[1..]))
  }

  lemma {:induction false} SubsequenceOfPrefix<T>(a: seq<T>, b: seq<T>, n: nat)
    requires IsSubsequence(a, b)
    ensures IsSubsequence(Take(a, n), b)
    decreases |b|
  {
    if n < |a| && n > 0 && b != [] {
      assert Take(a, n)[0] == a[0];
      if a[0] == b[0] {
        assert Take(a, n)[1..] == Take(a[1..], n - 1);
        SubsequenceOfPrefix(a[1..], b[1..], n - 1);
      } else {
        SubsequenceOfPrefix(a, b[1..], n);
      }
    }
  }

  lemma {:induction false} SubsequenceElements<T>(a: seq<T>, b: seq<T>)
    requires IsSubsequence(a, b)
    ensures forall x :: x in a ==> x in b
    ensures |a| <= |b|
    decreases |b|
  {
    if a != [] {
      if a[0] == b[0] {
        SubsequenceElements(a[1..], b[1..]);
        assert a == [a[0]] + a[1..];
      } else {
        SubsequenceElements(a, b[1..]);
      }
    }
  }

  /** Appending an element to the longer sequence, and optionally to the shorter, keeps the relation. */
  lemma {:induction false} SubsequenceSnoc<T>(a: seq<T>, b: seq<T>, x: T, keep: bool)
    requires IsSubsequence(a, b)
    ensures IsSubsequence(a + (if keep then [x] else []), b + [x])
    decreases |b|
  {
    if a == [] {
      if keep {
        SubsequenceOfLast(b, x);
        assert a + [x] == [x];
      }
    } else if a[0] == b[0] {
      assert (a + (if keep then [x] else []))[1..] == a[1..] + (if keep then [x] else []);
      assert (b + [x])[1..] == b[1..] + [x];
      SubsequenceSnoc(a[1..], b[1..], x, keep);
    } else {
      assert (b + [x])[1..] == b[1..] + [x];
      SubsequenceSnoc(a, b[1..], x, keep);
    }
  }

  lemma {:induction false} SubsequenceOfLast<T>(b: seq<T>, x: T)
    ensures IsSubsequence([x], b + [x])
    decreases |b|
  {
    if b != [] && b[0] != x {
      assert (b + [x])[1..] == b[1..] + [x];
      SubsequenceOfLast(b[1..], x);
    }
  }
}
