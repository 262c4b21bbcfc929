/**
 * The indexer that fills the entity collections of the vector store from the
 * memory files: each file is routed to one collection by keywords, cut into
 * 800-character chunks, and each chunk whose embedding succeeds becomes one
 * point. The embedding model, the string hash and the vector store are not
 * modelled; they are functions passed in, each of which may fail.
 */
module Vectorize {
  import opened Wrappers
  import opened Seqs
  import opened Text
  import opened Sorting

  // ---------------------------------------------------------------------------
  // Collections
  // ---------------------------------------------------------------------------

  /** One entry of the collection mapping: its name and its routing keywords (none when absent). */
  datatype Collection = Collection(name: string, keywords: seq<string>)

  /** The collection a file goes to when no keyword matches. */
  const FallbackCollection: string := "mem_sessions"

  /** `DEFAULT_COLLECTIONS`, in its declared order. */
  const DefaultCollections: seq<Collection> := [
    Collection("mem_steven", ["steven", "user", "preferences", "goals"]),
    Collection("mem_kaylie", ["kaylie", "wedding", "partner"]),
    Collection("mem_projects", ["project", "task", "status", "goal"]),
    Collection("mem_velcrafting", ["business", "client", "revenue", "consulting", "velcrafting"]),
    Collection("mem_ren_collective", ["agent", "collective", "decision"]),
    Collection("mem_sessions", ["session", "transcript", "conversation"]),
    Collection("mem_distilled", ["weekly", "summary", "distilled"]),
    Collection("mem_secrets", ["secret", "api", "token", "credential"])
  ]

  /** The names of a mapping, in order. */
  function Names(collections: seq<Collection>): (r: seq<string>)
    ensures |r| == |collections|
    ensures forall i :: 0 <= i < |r| ==> r[i] == collections[i].name
  {
    seq(|collections|, i requires 0 <= i < |collections| => collections[i].name)
  }

  /** Some keyword of `c` occurs in the lowercased content or file name. */
  predicate Matches(c: Collection, contentLower: string, filenameLower: string) {
    exists kw :: kw in c.keywords && (Contains(contentLower, kw) || Contains(filenameLower, kw))
  }

  /** The first collection, in mapping order, whose keywords match. */
  function FirstMatch(collections: seq<Collection>, contentLower: string, filenameLower: string): (r: Option<string>)
    ensures r.None? <==> forall i :: 0 <= i < |collections| ==> !Matches(collections[i], contentLower, filenameLower)
    ensures r.Some? ==>
              exists i :: 0 <= i < |collections| && collections[i].name == r.value
                          && Matches(collections[i], contentLower, filenameLower)
                          && forall j :: 0 <= j < i ==> !Matches(collections[j], contentLower, filenameLower)
  {
    if collections == [] then None
    else if Matches(collections[0], contentLower, filenameLower) then Some(collections[0].name)
    else
      var r := FirstMatch(collections[1..], contentLower, filenameLower);
      assert forall i :: 1 <= i < |collections| ==> collections[1..][i - 1] == collections[i];
      r
  }

  /** `detect_collection`: the first collection with a keyword in the content or the file name, ignoring case. */
  function DetectCollection(content: string, filename: string, collections: seq<Collection>): (r: string)
    ensures r == FallbackCollection || r in Names(collections)
  {
    match FirstMatch(collections, Lower(content), Lower(filename))
    case Some(name) =>
      var i :| 0 <= i < |collections| && collections[i].name == name;
      assert Names(collections)[i] == name;
      name
    case None => FallbackCollection
  }

  /**
   * The routing rule in full: the result is the name of the first collection
   * whose keywords match, and the fallback exactly when none does.
   */
  lemma DetectCollectionFirst(content: string, filename: string, collections: seq<Collection>, i: nat)
    requires i < |collections| && Matches(collections[i], Lower(content), Lower(filename))
    requires forall j :: 0 <= j < i ==> !Matches(collections[j], Lower(content), Lower(filename))
    ensures DetectCollection(content, filename, collections) == collections[i].name
  {
    var r := FirstMatch(collections, Lower(content), Lower(filename));
    var k :| 0 <= k < |collections| && collections[k].name == r.value
             && Matches(collections[k], Lower(content), Lower(filename))
             && forall j :: 0 <= j < k ==> !Matches(collections[j], Lower(content), Lower(filename));
    assert k == i;
  }

  /** Without a match the file goes to the fallback collection. */
  lemma DetectCollectionFallback(content: string, filename: string, collections: seq<Collection>)
    requires forall i :: 0 <= i < |collections| ==> !Matches(collections[i], Lower(content), Lower(filename))
    ensures DetectCollection(content, filename, collections) == FallbackCollection
  {
  }

  /** Mapping order decides: any text that mentions "goals" goes to `mem_steven`, whatever else it mentions. */
  lemma GoalsRouteToSteven(content: string, filename: string)
    requires Contains(Lower(content), "goals")
    ensures DetectCollection(content, filename, DefaultCollections) == "mem_steven"
  {
    assert "goals" in DefaultCollections[0].keywords;
    DetectCollectionFirst(content, filename, DefaultCollections, 0);
  }

  // ---------------------------------------------------------------------------
  // File metadata
  // ---------------------------------------------------------------------------

  /** The metadata `parse_memory_file` attaches to every chunk of a file. */
  datatype Meta = Meta(
    sourceFile: string,
    storedAt: string,
    memoryTier: string,
    accessCount: nat,
    date: Option<string>,
    collection: string)

  const WorkingTier: string := "working"

  /** What reading a memory file gives: its path and stem, its text (none when it cannot be read) and the clock then. */
  datatype MemoryFile = MemoryFile(path: string, stem: string, content: Option<string>, storedAt: string)

  predicate AllDigits(s: string) {
    forall i :: 0 <= i < |s| ==> IsDigit(s[i])
  }

  /** The metadata of `parse_memory_file`: routed by the default mapping, dated by a file name that starts with a year. */
  function FileMeta(path: string, stem: string, content: string, storedAt: string): (m: Meta)
    ensures m.memoryTier == WorkingTier && m.accessCount == 0
    ensures m.sourceFile == path && m.storedAt == storedAt
    ensures m.date.Some? <==> |stem| >= 10 && AllDigits(stem[..4])
    ensures m.date.Some? ==> |m.date.value| == 10 && StartsWith(stem, m.date.value)
    ensures m.collection == FallbackCollection || m.collection in Names(DefaultCollections)
  {
    var date := if |stem| >= 10 && AllDigits(stem[..4]) then Some(stem[..10]) else None;
    Meta(path, storedAt, WorkingTier, 0, date, DetectCollection(content, stem, DefaultCollections))
  }

  // ---------------------------------------------------------------------------
  // Chunks
  // ---------------------------------------------------------------------------

  const ChunkSize: nat := 800

  function Min(a: int, b: int): int { if a <= b then a else b }

  /** `[content[i:i+800] for i in range(0, len(content), 800)]` */
  function Chunks(content: string): (r: seq<string>)
    ensures |r| * ChunkSize >= |content| && (|r| == 0 || (|r| - 1) * ChunkSize < |content|)
    ensures forall k :: 0 <= k < |r| ==>
              r[k] == content[k * ChunkSize..Min((k + 1) * ChunkSize, |content|)]
  {
    var n := (|content| + ChunkSize - 1) / ChunkSize;
    seq(n, k requires 0 <= k < n => content[k * ChunkSize..Min((k + 1) * ChunkSize, |content|)])
  }

  /** The chunks, joined in order, give back the content. */
  lemma ChunksJoin(content: string)
    ensures Concat(Chunks(content)) == content
  {
    var chunks := Chunks(content);
    ChunksPrefix(content, |chunks|);
    assert chunks[..|chunks|] == chunks;
  }

  lemma {:induction false} ChunksPrefix(content: string, n: nat)
    requires n <= |Chunks(content)|
    ensures Concat(Chunks(content)[..n]) == content[..Min(n * ChunkSize, |content|)]
  {
    var chunks := Chunks(content);
    if n > 0 {
      ChunksPrefix(content, n - 1);
      assert chunks[..n][..n - 1] == chunks[..n - 1];
      var a := Min((n - 1) * ChunkSize, |content|);
      var b := Min(n * ChunkSize, |content|);
      assert content[..a] + content[a..b] == content[..b];
    }
  }

  /** Every chunk but the last is full, and the last holds between 1 and 800 characters. */
  lemma ChunkLengths(content: string)
    ensures forall k :: 0 <= k < |Chunks(content)| - 1 ==> |Chunks(content)[k]| == ChunkSize
    ensures Chunks(content) != [] ==> 1 <= |Chunks(content)[|Chunks(content)| - 1]| <= ChunkSize
    ensures Chunks(content) == [] <==> content == []
  {
  }

  // ---------------------------------------------------------------------------
  // Points
  // ---------------------------------------------------------------------------

  /** The payload of a point: the chunk, its position, the file's chunk count, and the file's metadata. */
  datatype Payload = Payload(content: string, chunkIndex: nat, totalChunks: nat, meta: Meta)

  datatype PointStruct = PointStruct(id: int, vector: seq<real>, payload: Payload)

  /** One call of the store's `upsert`: the collection and the points sent to it. */
  datatype Upsert = Upsert(collection: string, points: seq<PointStruct>)

  /**
   * What the indexer calls and cannot see. `embed` is `get_embedding`: a vector,
   * or none where the model raises. `hash` is `str.__hash__`. `upsert` says
   * whether the store accepts a batch (false: it raises).
   */
  datatype Services = Services(
    embed: string -> Option<seq<real>>,
    hash: string -> int,
    upsert: Upsert -> bool)

  /** Point ids keep the low 32 bits of the hash, `& 0xFFFFFFFF` on Python's unbounded integers. */
  const IdRange: int := 0x1_0000_0000

  /** `if emb:` — an embedding counts when it is present and not empty. */
  predicate Embedded(v: Option<seq<real>>) {
    v.Some? && v.value != []
  }

  /** The point of chunk `i` of a file. */
  function ChunkPoint(stem: string, meta: Meta, chunks: seq<string>, i: nat, vector: seq<real>, hash: string -> int)
    : (p: PointStruct)
    requires i < |chunks|
    ensures 0 <= p.id < IdRange
    ensures p.payload.content == chunks[i] && p.payload.chunkIndex == i && p.payload.totalChunks == |chunks|
    ensures p.payload.meta == meta && p.vector == vector
  {
    PointStruct(hash(stem + "_" + NatToString(i)) % IdRange, vector, Payload(chunks[i], i, |chunks|, meta))
  }

  /** The points of the first `n` chunks: one per chunk whose embedding counts, in chunk order. */
  function PointsFor(stem: string, meta: Meta, chunks: seq<string>, n: nat, s: Services): (ps: seq<PointStruct>)
    requires n <= |chunks|
    ensures |ps| <= n
    ensures forall k :: 0 <= k < |ps| ==>
              ps[k].payload.chunkIndex < n && Embedded(s.embed(chunks[ps[k].payload.chunkIndex]))
              && ps[k] == ChunkPoint(stem, meta, chunks, ps[k].payload.chunkIndex,
                                     s.embed(chunks[ps[k].payload.chunkIndex]).value, s.hash)
    ensures forall a, b :: 0 <= a < b < |ps| ==> ps[a].payload.chunkIndex < ps[b].payload.chunkIndex
  {
    if n == 0 then []
    else
      var prev := PointsFor(stem, meta, chunks, n - 1, s);
      var v := s.embed(chunks[n - 1]);
      if Embedded(v) then
        var p := ChunkPoint(stem, meta, chunks, n - 1, v.value, s.hash);
        var ps := prev + [p];
        assert forall k :: 0 <= k < |prev| ==> ps[k] == prev[k];
        assert ps[|prev|] == p;
        ps
      else prev
  }

  /** Every chunk whose embedding counts has its point. */
  lemma {:induction false} EveryEmbeddedChunkHasPoint(stem: string, meta: Meta, chunks: seq<string>, n: nat, s: Services, i: nat)
    requires i < n <= |chunks| && Embedded(s.embed(chunks[i]))
    ensures exists k :: 0 <= k < |PointsFor(stem, meta, chunks, n, s)| && PointsFor(stem, meta, chunks, n, s)[k].payload.chunkIndex == i
  {
    var prev := PointsFor(stem, meta, chunks, n - 1, s);
    var ps := PointsFor(stem, meta, chunks, n, s);
    if i == n - 1 {
      assert ps[|prev|].payload.chunkIndex == i;
    } else {
      EveryEmbeddedChunkHasPoint(stem, meta, chunks, n - 1, s, i);
      var k :| 0 <= k < |prev| && prev[k].payload.chunkIndex == i;
      assert ps[k] == prev[k];
    }
  }

  /** `index_file` of one file: its collection, and the points its chunks give. */
  function FilePoints(f: MemoryFile, content: string, s: Services): (u: Upsert)
  {
    var meta := FileMeta(f.path, f.stem, content, f.storedAt);
    var chunks := Chunks(content);
    Upsert(meta.collection, PointsFor(f.stem, meta, chunks, |chunks|, s))
  }

  /**
   * `index_file`: an unreadable file raises; a file whose chunks give no
   * points is not indexed; otherwise the points are upserted (which may raise)
   * and the file is indexed.
   */
  function IndexSpec(f: MemoryFile, s: Services): (out: (Result<bool>, Option<Upsert>))
    ensures out.1.Some? ==> f.content.Some? && out.1.value == FilePoints(f, f.content.value, s) && out.1.value.points != []
    ensures out.0 == Success(true) <==> out.1.Some? && s.upsert(out.1.value)
  {
    if f.content.None? then (Failure(OSError(f.path)), None)
    else
      var u := FilePoints(f, f.content.value, s);
      if u.points == [] then (Success(false), None)
      else if s.upsert(u) then (Success(true), Some(u))
      else (Failure(BackendError), Some(u))
  }

  /** An empty file gives no chunks and is not indexed. */
  lemma EmptyFileNotIndexed(f: MemoryFile, s: Services)
    requires f.content == Some("")
    ensures IndexSpec(f, s) == (Success(false), None)
  {
  }

  /** The points of an indexed file: at most one per chunk, in chunk order, each carrying the file's chunk count. */
  lemma IndexedPoints(f: MemoryFile, s: Services)
    requires IndexSpec(f, s).1.Some?
    ensures var chunks := Chunks(f.content.value);
            var ps := IndexSpec(f, s).1.value.points;
            |ps| <= |chunks|
            && (forall k :: 0 <= k < |ps| ==>
                  ps[k].payload.chunkIndex < |chunks| && ps[k].payload.content == chunks[ps[k].payload.chunkIndex]
                  && ps[k].payload.totalChunks == |chunks| && 0 <= ps[k].id < IdRange)
            && (forall a, b :: 0 <= a < b < |ps| ==> ps[a].payload.chunkIndex < ps[b].payload.chunkIndex)
  {
  }

  /** `index_file`, building the points chunk by chunk. */
  method IndexFile(f: MemoryFile, s: Services) returns (r: Result<bool>, sent: Option<Upsert>)
    ensures (r, sent) == IndexSpec(f, s)
  {
    if f.content.None? {
      return Failure(OSError(f.path)), None;
    }
    var content := f.content.value;
    var meta := FileMeta(f.path, f.stem, content, f.storedAt);
    var chunks := Chunks(content);
    var points: seq<PointStruct> := [];
    for i := 0 to |chunks|
      invariant points == PointsFor(f.stem, meta, chunks, i, s)
    {
      var emb := s.embed(chunks[i]);
      if emb.Some? && emb.value != [] {
        points := points + [ChunkPoint(f.stem, meta, chunks, i, emb.value, s.hash)];
      }
    }
    if points == [] {
      return Success(false), None;
    }
    var batch := Upsert(meta.collection, points);
    if !s.upsert(batch) {
      return Failure(BackendError), Some(batch);
    }
    return Success(true), Some(batch);
  }

  // ---------------------------------------------------------------------------
  // A directory
  // ---------------------------------------------------------------------------

  /** The tally over `files`: how many were indexed, and the batches sent, in order. */
  function IndexAll(files: seq<MemoryFile>, s: Services): (out: (nat, seq<Upsert>))
    ensures out.0 <= |files|
  {
    if files == [] then (0, [])
    else Tally(IndexAll(files[..|files| - 1], s), IndexSpec(files[|files| - 1], s))
  }

  /** One more file: counted when `index_file` returned True; an exception is reported and passed over. */
  function Tally(prev: (nat, seq<Upsert>), out: (Result<bool>, Option<Upsert>)): (next: (nat, seq<Upsert>))
    ensures next.0 == prev.0 + (if out.0 == Success(true) then 1 else 0)
    ensures next.1 == prev.1 + (if out.1.Some? then [out.1.value] else [])
  {
    (prev.0 + (if out.0 == Success(true) then 1 else 0), prev.1 + (if out.1.Some? then [out.1.value] else []))
  }

  /** The count over two runs of files is the sum of their counts. */
  lemma {:induction false} IndexAllSplit(a: seq<MemoryFile>, b: seq<MemoryFile>, s: Services)
    ensures IndexAll(a + b, s).0 == IndexAll(a, s).0 + IndexAll(b, s).0
    ensures IndexAll(a + b, s).1 == IndexAll(a, s).1 + IndexAll(b, s).1
    decreases |b|
  {
    if b == [] {
      assert a + b == a;
    } else {
      var init := b[..|b| - 1];
      IndexAllSplit(a, init, s);
      assert (a + b)[..|a + b| - 1] == a + init;
      assert (a + b)[|a + b| - 1] == b[|b| - 1];
    }
  }

  /** A file whose indexing raises changes nothing for the others. */
  lemma FailureIsolated(a: seq<MemoryFile>, f: MemoryFile, b: seq<MemoryFile>, s: Services)
    requires IndexSpec(f, s).0.Failure? && IndexSpec(f, s).1.None?
    ensures IndexAll(a + [f] + b, s) == IndexAll(a + b, s)
  {
    IndexAllSplit(a + [f], b, s);
    IndexAllSplit(a, b, s);
    assert (a + [f])[..|a + [f]| - 1] == a;
    assert (a + [f])[|a + [f]| - 1] == f;
    assert IndexAll(a + [f], s) == Tally(IndexAll(a, s), IndexSpec(f, s));
    assert IndexAll(a, s).1 + [] == IndexAll(a, s).1;
  }

  /** One file more in the loop. */
  lemma IndexAllSnoc(files: seq<MemoryFile>, i: nat, s: Services)
    requires i < |files|
    ensures IndexAll(files[..i + 1], s) == Tally(IndexAll(files[..i], s), IndexSpec(files[i], s))
  {
    assert files[..i + 1][..i] == files[..i];
  }

  /**
   * `index_directory`: nothing for a missing directory; otherwise the files,
   * in listing order, each indexed, counting those that returned True.
   */
  method IndexDirectory(exists_: bool, files: seq<MemoryFile>, s: Services)
    returns (indexed: nat, sent: seq<Upsert>)
    ensures !exists_ ==> indexed == 0 && sent == []
    ensures exists_ ==> (indexed, sent) == IndexAll(files, s)
  {
    if !exists_ {
      return 0, [];
    }
    indexed, sent := 0, [];
    for i := 0 to |files|
      invariant IndexAll(files[..i], s).0 == indexed
      invariant IndexAll(files[..i], s).1 == sent
    {
      IndexAllSnoc(files, i, s);
      var r, batch := IndexFile(files[i], s);
      if r == Success(true) {
        indexed := indexed + 1;
      }
      if batch.Some? {
        sent := sent + [batch.value];
      }
    }
    assert files[..|files|] == files;
  }

  // ---------------------------------------------------------------------------
  // Search
  // ---------------------------------------------------------------------------

  /** A point as `query_points` returns it. */
  datatype ScoredPoint = ScoredPoint(id: int, score: real, payload: Option<Payload>)

  /** One result of `search_memories`: the collection it came from and the point. */
  datatype Found = Found(collection: string, point: ScoredPoint)

  function Score(f: Found): real {
    f.point.score
  }

  /** The collections searched: the one asked for, else every collection of the mapping (the default one when none is given). */
  function Targets(collection: Option<string>, collections: Option<seq<Collection>>): (cs: seq<string>)
    ensures collection.Some? && collection.value != [] ==> cs == [collection.value]
    ensures (collection.None? || collection.value == []) && collections.Some? && collections.value != []
            ==> cs == Names(collections.value)
    ensures (collection.None? || collection.value == []) && (collections.None? || collections.value == [])
            ==> cs == Names(DefaultCollections)
  {
    if collection.Some? && collection.value != [] then [collection.value]
    else if collections.Some? && collections.value != [] then Names(collections.value)
    else Names(DefaultCollections)
  }

  /** The points a collection answers with, tagged by it; nothing when its query raises. */
  function Tagged(coll: string, answer: Option<seq<ScoredPoint>>): (r: seq<Found>)
    ensures answer.None? ==> r == []
    ensures answer.Some? ==> |r| == |answer.value|
                             && forall k :: 0 <= k < |r| ==> r[k] == Found(coll, answer.value[k])
  {
    if answer.None? then []
    else seq(|answer.value|, k requires 0 <= k < |answer.value| => Found(coll, answer.value[k]))
  }

  /** The results of querying `colls` in order, before sorting. */
  function Gather(colls: seq<string>, vector: seq<real>, limit: nat,
                  query: (string, seq<real>, nat) -> Option<seq<ScoredPoint>>): seq<Found>
  {
    if colls == [] then []
    else
      var c := colls[|colls| - 1];
      Gather(colls[..|colls| - 1], vector, limit, query) + Tagged(c, query(c, vector, limit))
  }

  /** A result is gathered exactly when a searched collection answered with that point. */
  lemma {:induction false} GatherMembers(colls: seq<string>, vector: seq<real>, limit: nat,
                                         query: (string, seq<real>, nat) -> Option<seq<ScoredPoint>>, f: Found)
    ensures f in Gather(colls, vector, limit, query)
            <==> f.collection in colls && query(f.collection, vector, limit).Some?
                 && f.point in query(f.collection, vector, limit).value
  {
    if colls != [] {
      var init := colls[..|colls| - 1];
      var c := colls[|colls| - 1];
      GatherMembers(init, vector, limit, query, f);
      assert colls == init + [c];
      var answer := query(c, vector, limit);
      var tagged := Tagged(c, answer);
      if f in tagged {
        var k :| 0 <= k < |tagged| && tagged[k] == f;
        assert answer.value[k] == f.point;
      }
      if f.collection == c && answer.Some? && f.point in answer.value {
        var k :| 0 <= k < |answer.value| && answer.value[k] == f.point;
        assert tagged[k] == f;
      }
    }
  }

  /**
   * `search_memories`: nothing when the query cannot be embedded; otherwise
   * every point every searched collection answered with, best score first.
   * The list is not cut to `limit`; only each collection's query is.
   */
  method SearchMemories(query: string, collection: Option<string>, limit: nat, collections: Option<seq<Collection>>,
                        embed: string -> Option<seq<real>>,
                        search: (string, seq<real>, nat) -> Option<seq<ScoredPoint>>)
    returns (results: seq<Found>)
    ensures !Embedded(embed(query)) ==> results == []
    ensures Embedded(embed(query)) ==>
              var hits := Gather(Targets(collection, collections), embed(query).value, limit, search);
              multiset(results) == multiset(hits) && SortedDesc(results, Score)
  {
    var emb := embed(query);
    if !(emb.Some? && emb.value != []) {
      return [];
    }
    results := [];
    var colls := Targets(collection, collections);
    for i := 0 to |colls|
      invariant results == Gather(colls[..i], emb.value, limit, search)
    {
      assert colls[..i + 1][..i] == colls[..i];
      var answer := search(colls[i], emb.value, limit);
      if answer.Some? {
        results := results + Tagged(colls[i], answer);
      }
    }
    assert colls[..|colls|] == colls;
    results := SortDesc(results, Score);
  }

  /** Every gathered point is returned, and nothing else: the result is not truncated. */
  lemma SearchKeepsAll(hits: seq<Found>, f: Found)
    ensures f in SortDesc(hits, Score) <==> f in hits
    ensures |SortDesc(hits, Score)| == |hits|
  {
    var r := SortDesc(hits, Score);
    assert f in r <==> f in multiset(r);
    assert f in hits <==> f in multiset(hits);
    assert |r| == |multiset(r)|;
  }
}
