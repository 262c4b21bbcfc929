/**
 * The two ways the memory brain finds memories for a query: a similarity
 * search over its vector collections, and the fallback that greps the daily
 * files. The embedding model and the vector store are not modelled; they are
 * the two functions of a `Store`, each of which either answers or fails.
 */
module Retrieval {
  import opened Wrappers
  import opened Seqs
  import opened Text
  import opened Ledger

  /** A stored point as a search returns it: its payload's `content` (if any) and its score. */
  datatype Point = Point(content: Option<string>, score: real)

  /**
   * The embedding model and the vector store. `embed` is `None` where the model
   * raises; `search(collection, vector, limit)` is `None` where `query_points` raises.
   */
  datatype Store = Store(
    embed: string -> Option<seq<real>>,
    search: (string, seq<real>, nat) -> Option<seq<Point>>)

  /** One search result: `{"collection", "content", "score"}`, plus `"file"` for grep results. */
  datatype Hit = Hit(collection: string, file: Option<string>, content: string, score: real)

  /** The keys of the brain's `COLLECTIONS`, in their declared order. */
  const BrainCollections: seq<string> :=
    ["mem_steven", "mem_kaylie", "mem_projects", "mem_velcrafting",
     "mem_ren_collective", "mem_sessions", "mem_distilled"]

  /** The results a collection contributes; nothing when its search fails. */
  function CollectionHits(collection: string, answer: Option<seq<Point>>): (r: seq<Hit>)
    ensures answer.None? ==> r == []
    ensures answer.Some? ==> |r| == |answer.value|
    ensures answer.Some? ==> forall k :: 0 <= k < |r| ==>
              r[k].collection == collection && r[k].file.None? && r[k].score == answer.value[k].score
              && r[k].content == Take(answer.value[k].content.GetOr(""), 200)
  {
    if answer.None? then []
    else
      var pts := answer.value;
      seq(|pts|, k requires 0 <= k < |pts| => Hit(collection, None, Take(pts[k].content.GetOr(""), 200), pts[k].score))
  }

  /** The results of searching `collections` in order, skipping those that fail. */
  function SearchAll(store: Store, vec: seq<real>, collections: seq<string>, limit: nat): seq<Hit> {
    if collections == [] then []
    else
      var c := collections[|collections| - 1];
      SearchAll(store, vec, collections[..|collections| - 1], limit) + CollectionHits(c, store.search(c, vec, limit))
  }

  /**
   * A result is found exactly when one of the searched collections answered
   * with that point; its content is cut to 200 characters.
   */
  lemma {:induction false} SearchAllMembers(store: Store, vec: seq<real>, collections: seq<string>, limit: nat, h: Hit)
    ensures h in SearchAll(store, vec, collections, limit)
            <==> exists c, p :: c in collections && store.search(c, vec, limit).Some?
                                && p in store.search(c, vec, limit).value
                                && h == Hit(c, None, Take(p.content.GetOr(""), 200), p.score)
  {
    if collections != [] {
      var init := collections[..|collections| - 1];
      var c := collections[|collections| - 1];
      SearchAllMembers(store, vec, init, limit, h);
      assert collections == init + [c];
      var answer := store.search(c, vec, limit);
      if h in CollectionHits(c, answer) {
        var k :| 0 <= k < |CollectionHits(c, answer)| && CollectionHits(c, answer)[k] == h;
        assert answer.value[k] in answer.value;
      }
      if exists p :: answer.Some? && p in answer.value && h == Hit(c, None, Take(p.content.GetOr(""), 200), p.score) {
        var p :| answer.Some? && p in answer.value && h == Hit(c, None, Take(p.content.GetOr(""), 200), p.score);
        var k :| 0 <= k < |answer.value| && answer.value[k] == p;
        assert CollectionHits(c, answer)[k] == h;
      }
    }
  }

  /**
   * The per-collection loop of `query` and `_vector_search_fallback`: every
   * collection is searched with the same vector; a collection whose search
   * raises is skipped.
   */
  method SearchCollections(store: Store, vec: seq<real>, collections: seq<string>, limit: nat) returns (hits: seq<Hit>)
    ensures hits == SearchAll(store, vec, collections, limit)
  {
    hits := [];
    for i := 0 to |collections|
      invariant hits == SearchAll(store, vec, collections[..i], limit)
    {
      var c := collections[i];
      assert collections[..i + 1][..i] == collections[..i];
      var answer := store.search(c, vec, limit);
      if answer.Some? {
        var pts := answer.value;
        for j := 0 to |pts|
          invariant hits == SearchAll(store, vec, collections[..i], limit) + CollectionHits(c, answer)[..j]
        {
          hits := hits + [Hit(c, None, Take(pts[j].content.GetOr(""), 200), pts[j].score)];
          assert CollectionHits(c, answer)[..j + 1] == CollectionHits(c, answer)[..j] + [CollectionHits(c, answer)[j]];
        }
        assert CollectionHits(c, answer)[..|pts|] == CollectionHits(c, answer);
      }
    }
    assert collections[..|collections|] == collections;
  }

  // ---------------------------------------------------------------------------
  // The grep fallback
  // ---------------------------------------------------------------------------

  /** The lines grep reads from a file: split at newlines, no empty line after a final newline. */
  function GrepLines(text: string): (lines: seq<string>)
    ensures forall k :: 0 <= k < |lines| ==> '\n' !in lines[k]
  {
    var parts := Split(text, '\n');
    if parts[|parts| - 1] == "" then parts[..|parts| - 1] else parts
  }

  /** The lines `grep -i query` prints, modelled as case-insensitive substring matches. */
  function MatchingLines(lines: seq<string>, query: string): (r: seq<string>)
    ensures |r| <= |lines|
    ensures forall x :: x in r <==> x in lines && Mentions(x, query)
  {
    if lines == [] then []
    else
      var last := lines[|lines| - 1];
      var init := MatchingLines(lines[..|lines| - 1], query);
      assert lines == lines[..|lines| - 1] + [last];
      init + (if Mentions(last, query) then [last] else [])
  }

  /**
   * `r` lists the lines of `lines` that mention the query, in file order:
   * entry k is line `idx[k]`, the indices increase, and they are exactly the
   * indices of the lines that mention the query.
   */
  predicate ListsMatchesInOrder(r: seq<string>, lines: seq<string>, query: string, idx: seq<nat>) {
    && |idx| == |r|
    && (forall k :: 0 <= k < |idx| ==> idx[k] < |lines| && r[k] == lines[idx[k]])
    && (forall k, l :: 0 <= k < l < |idx| ==> idx[k] < idx[l])
    && (forall i :: 0 <= i < |lines| ==> (i in idx <==> Mentions(lines[i], query)))
  }

  /** The matching lines are the lines that mention the query, in file order, so `[:3]` keeps the first three. */
  lemma {:induction false} MatchingLinesInFileOrder(lines: seq<string>, query: string) returns (idx: seq<nat>)
    ensures ListsMatchesInOrder(MatchingLines(lines, query), lines, query, idx)
  {
    if lines == [] {
      idx := [];
    } else {
      var n := |lines| - 1;
      var idx0 := MatchingLinesInFileOrder(lines[..n], query);
      var keep := Mentions(lines[n], query);
      assert MatchingLines(lines, query) == MatchingLines(lines[..n], query) + (if keep then [lines[n]] else []);
      idx := idx0 + (if keep then [n] else []);
      MatchesSnoc(MatchingLines(lines[..n], query), lines, query, idx0);
    }
  }

  /** Extending the lines by one keeps the listing in order, the last line joining it when it matches. */
  lemma MatchesSnoc(r: seq<string>, lines: seq<string>, query: string, idx: seq<nat>)
    requires lines != [] && ListsMatchesInOrder(r, lines[..|lines| - 1], query, idx)
    ensures var n := |lines| - 1;
            var keep := Mentions(lines[n], query);
            ListsMatchesInOrder(r + (if keep then [lines[n]] else []), lines, query, idx + (if keep then [n] else []))
  {
    var n := |lines| - 1;
    var init := lines[..n];
    var keep := Mentions(lines[n], query);
    var r2 := r + (if keep then [lines[n]] else []);
    var idx2 := idx + (if keep then [n] else []);
    forall k | 0 <= k < |idx2|
      ensures idx2[k] < |lines| && r2[k] == lines[idx2[k]]
    {
      if k < |idx| {
        assert init[idx[k]] == lines[idx[k]];
      }
    }
    forall k, l | 0 <= k < l < |idx2|
      ensures idx2[k] < idx2[l]
    {
      assert idx2[k] == idx[k];
      if l < |idx| {
        assert idx2[l] == idx[l];
      }
    }
    assert n !in idx;
    forall i | 0 <= i < |lines|
      ensures i in idx2 <==> Mentions(lines[i], query)
    {
      if i < n {
        assert init[i] == lines[i];
        assert i in idx2 <==> i in idx;
      }
    }
  }

  /**
   * What `_file_based_search` takes from one file of the memory directory: the
   * first three matching lines, each stripped and cut to 200 characters, at a
   * fixed score of 0.5; nothing for a `Week_` file.
   */
  function FileVisit(query: string, stem: string, text: string): (r: seq<Hit>)
    ensures StartsWith(stem, "Week_") ==> r == []
    ensures !StartsWith(stem, "Week_") ==> |r| == if |MatchingLines(GrepLines(text), query)| < 3 then |MatchingLines(GrepLines(text), query)| else 3
    ensures forall k :: 0 <= k < |r| ==>
              r[k].collection == "file" && r[k].file == Some(PathOf(MemoryDir, stem))
              && r[k].score == 0.5 && |r[k].content| <= 200
  {
    if StartsWith(stem, "Week_") then [] else Quotes(stem, Take(MatchingLines(GrepLines(text), query), 3))
  }

  /** One result per line of a file, in order: the line stripped and cut to 200 characters, at a score of 0.5. */
  function Quotes(stem: string, lines: seq<string>): (r: seq<Hit>)
    ensures |r| == |lines|
    ensures forall k :: 0 <= k < |r| ==>
              r[k] == Hit("file", Some(PathOf(MemoryDir, stem)), Take(Strip(lines[k]), 200), 0.5)
              && |r[k].content| <= 200
  {
    seq(|lines|, k requires 0 <= k < |lines| => Hit("file", Some(PathOf(MemoryDir, stem)), Take(Strip(lines[k]), 200), 0.5))
  }

  /** Each grep result quotes a line of the file that mentions the query, in match order. */
  lemma FileVisitQuotesMatches(query: string, stem: string, text: string, k: nat)
    requires k < |FileVisit(query, stem, text)|
    ensures var m := MatchingLines(GrepLines(text), query);
            k < |m| && m[k] in GrepLines(text) && Mentions(m[k], query)
            && FileVisit(query, stem, text)[k].content == Take(Strip(m[k]), 200)
  {
    var m := MatchingLines(GrepLines(text), query);
    assert Take(m, 3)[k] == m[k];
    assert m[k] in m;
  }

  /** The results of `_file_based_search` when the memory directory lists `order`. */
  function FileHits(order: seq<string>, files: map<string, string>, query: string): seq<Hit>
    requires forall k :: 0 <= k < |order| ==> order[k] in files
  {
    Scan(order, files, (stem, text) => FileVisit(query, stem, text))
  }

  /** The fallback reports at most three lines per file. */
  lemma {:induction false} FileHitsBound(order: seq<string>, files: map<string, string>, query: string)
    requires forall k :: 0 <= k < |order| ==> order[k] in files
    ensures |FileHits(order, files, query)| <= 3 * |order|
  {
    if order != [] {
      FileHitsBound(order[..|order| - 1], files, query);
    }
  }

  /** Visiting one more file appends that file's hits. */
  lemma FileHitsSnoc(order: seq<string>, stem: string, files: map<string, string>, query: string)
    requires (forall k :: 0 <= k < |order| ==> order[k] in files) && stem in files
    ensures forall k :: 0 <= k < |order + [stem]| ==> (order + [stem])[k] in files
    ensures FileHits(order + [stem], files, query) == FileHits(order, files, query) + FileVisit(query, stem, files[stem])
  {
    ScanSnoc(order, stem, files, (stem, text) => FileVisit(query, stem, text));
  }

  /** The inner loop of `_file_based_search`: the hits for one file. */
  method VisitFile(query: string, stem: string, text: string) returns (found: seq<Hit>)
    ensures found == FileVisit(query, stem, text)
  {
    found := [];
    if StartsWith(stem, "Week_") {
      return;
    }
    found := QuoteLines(stem, Take(MatchingLines(GrepLines(text), query), 3));
  }

  /** The hits for the matching lines of one file, one by one. */
  method QuoteLines(stem: string, lines: seq<string>) returns (found: seq<Hit>)
    ensures found == Quotes(stem, lines)
  {
    found := [];
    ghost var all := Quotes(stem, lines);
    for j := 0 to |lines|
      invariant found == all[..j]
    {
      found := found + [Hit("file", Some(PathOf(MemoryDir, stem)), Take(Strip(lines[j]), 200), 0.5)];
      assert all[..j + 1] == all[..j] + [all[j]];
    }
    assert all[..|lines|] == all;
  }
}
