/**
 * The tracking ledger (`access_tracking.json`) of the memory brain, the
 * records it holds, and where the brain's files live.
 */
module Ledger {
  import opened Wrappers
  import opened Seqs
  import opened Text
  import opened Calendar

  // ---------------------------------------------------------------------------
  // Layout of the memory directory
  // ---------------------------------------------------------------------------

  const MemoryDir: string := "/home/vel/.openclaw/memory"
  const QuarantineDir: string := MemoryDir + "/entities/_quarantine"
  const EntitiesDir: string := MemoryDir + "/entities"
  const DistilledDir: string := MemoryDir + "/distilled"
  const ArchiveDir: string := MemoryDir + "/archive"

  /** `dir / f"{stem}.md"` as a string. */
  function PathOf(dir: string, stem: string): string {
    dir + "/" + stem + ".md"
  }

  /** `name.lower().replace(' ', '_')`, the file stem of an entity. */
  function Slug(name: string): (r: string)
    ensures |r| == |name| && ' ' !in r
    ensures forall i :: 0 <= i < |name| && name[i] != ' ' ==> r[i] == LowerChar(name[i])
    ensures forall i :: 0 <= i < |name| && name[i] == ' ' ==> r[i] == '_'
  {
    if name == [] then []
    else [if name[0] == ' ' then '_' else LowerChar(name[0])] + Slug(name[1..])
  }

  /** `order` lists each name of `names` exactly once: one possible order of a directory listing. */
  ghost predicate IsListing(order: seq<string>, names: set<string>) {
    (forall k :: 0 <= k < |order| ==> order[k] in names)
    && (forall n :: n in names ==> n in order)
    && (forall i, j :: 0 <= i < j < |order| ==> order[i] != order[j])
  }

  /** The results of visiting the files named by `order`, concatenated in visiting order. */
  function Scan<H>(order: seq<string>, files: map<string, string>, visit: (string, string) -> seq<H>): seq<H>
    requires forall k :: 0 <= k < |order| ==> order[k] in files
  {
    if order == [] then []
    else
      var n := order[|order| - 1];
      Scan(order[..|order| - 1], files, visit) + visit(n, files[n])
  }

  /** A result comes from a scan exactly when visiting one of the listed files produced it. */
  lemma {:induction false} ScanMembership<H>(order: seq<string>, files: map<string, string>,
                                             visit: (string, string) -> seq<H>, h: H)
    requires forall k :: 0 <= k < |order| ==> order[k] in files
    ensures h in Scan(order, files, visit)
            <==> exists k :: 0 <= k < |order| && h in visit(order[k], files[order[k]])
  {
    if order != [] {
      var init := order[..|order| - 1];
      ScanMembership(init, files, visit, h);
      if h in Scan(order, files, visit) && h !in Scan(init, files, visit) {
        assert h in visit(order[|order| - 1], files[order[|order| - 1]]);
      }
      if exists k :: 0 <= k < |order| && h in visit(order[k], files[order[k]]) {
        var k :| 0 <= k < |order| && h in visit(order[k], files[order[k]]);
        if k < |order| - 1 {
          assert init[k] == order[k];
        }
      }
    }
  }

  /** Visiting one more file appends its results to the scan. */
  lemma ScanSnoc<H>(order: seq<string>, n: string, files: map<string, string>, visit: (string, string) -> seq<H>)
    requires (forall k :: 0 <= k < |order| ==> order[k] in files) && n in files
    ensures forall k :: 0 <= k < |order + [n]| ==> (order + [n])[k] in files
    ensures Scan(order + [n], files, visit) == Scan(order, files, visit) + visit(n, files[n])
  {
    assert (order + [n])[..|order|] == order;
  }

  /**
   * Part way through a directory listing: `order` has been visited, `rest`
   * is still to come, and together they list `names` once each.
   */
  ghost predicate Partial(order: seq<string>, rest: set<string>, names: set<string>) {
    (forall k :: 0 <= k < |order| ==> order[k] in names && order[k] !in rest)
    && rest <= names
    && (forall n :: n in names ==> n in rest || n in order)
    && (forall i, j :: 0 <= i < j < |order| ==> order[i] != order[j])
  }

  lemma PartialStep(order: seq<string>, rest: set<string>, names: set<string>, n: string)
    requires Partial(order, rest, names) && n in rest
    ensures Partial(order + [n], rest - {n}, names)
  {
    var o := order + [n];
    forall i, j | 0 <= i < j < |o| ensures o[i] != o[j] {
      if j < |order| {
        assert o[i] == order[i] && o[j] == order[j];
      }
    }
  }

  lemma PartialDone(order: seq<string>, names: set<string>)
    requires Partial(order, {}, names)
    ensures IsListing(order, names)
  {
  }

  // ---------------------------------------------------------------------------
  // Records
  // ---------------------------------------------------------------------------

  /** One entry of `daily_files[date]`: the first 100 characters of a saved memory. */
  datatype DailyNote = DailyNote(content: string, category: string, importance: string, timestamp: Instant)

  /** `weekly_summaries[week_label]` */
  datatype WeeklyRecord = WeeklyRecord(file: string, entriesConsolidated: nat, timestamp: Instant)

  /** One entry of `quarantine`. */
  datatype QuarantineRecord = QuarantineRecord(name: string, file: string, timestamp: Instant, status: string)

  /** One entry of `validated_entities`. */
  datatype ValidatedRecord = ValidatedRecord(name: string, file: string, collection: string, timestamp: Instant)

  /**
   * A ledger key that should hold a dictionary. `EmptyList` is what loading
   * puts there when the key is missing from the stored file: indexing it by a
   * string then raises `TypeError`.
   */
  datatype Table<V> = Dict(entries: map<string, V>) | EmptyList

  datatype Tracking = Tracking(
    dailyFiles: Table<seq<DailyNote>>,
    weeklySummaries: Table<WeeklyRecord>,
    quarantine: seq<QuarantineRecord>,
    validated: seq<ValidatedRecord>)

  /** The keys of a stored ledger file; `None` is a key the file lacks. */
  datatype StoredTracking = StoredTracking(
    dailyFiles: Option<Table<seq<DailyNote>>>,
    weeklySummaries: Option<Table<WeeklyRecord>>,
    quarantine: Option<seq<QuarantineRecord>>,
    validated: Option<seq<ValidatedRecord>>)

  /**
   * `load_tracking`: a fresh ledger when no file exists; otherwise the stored
   * keys, each missing one filled with an empty list, the map-typed ones included.
   */
  function LoadTracking(stored: Option<StoredTracking>): (t: Tracking)
    ensures stored.None? ==> t == Tracking(Dict(map[]), Dict(map[]), [], [])
    ensures stored.Some? && stored.value.dailyFiles.None? ==> t.dailyFiles == EmptyList
    ensures stored.Some? && stored.value.dailyFiles.Some? ==> t.dailyFiles == stored.value.dailyFiles.value
    ensures stored.Some? && stored.value.weeklySummaries.None? ==> t.weeklySummaries == EmptyList
    ensures stored.Some? && stored.value.weeklySummaries.Some?
            ==> t.weeklySummaries == stored.value.weeklySummaries.value
    ensures stored.Some? ==> t.quarantine == stored.value.quarantine.GetOr([])
    ensures stored.Some? ==> t.validated == stored.value.validated.GetOr([])
  {
    match stored
    case None => Tracking(Dict(map[]), Dict(map[]), [], [])
    case Some(s) =>
      Tracking(s.dailyFiles.GetOr(EmptyList), s.weeklySummaries.GetOr(EmptyList),
               s.quarantine.GetOr([]), s.validated.GetOr([]))
  }

  /** The set of names a ledger list holds, each record's name read by `nameOf`. */
  function NameSet<R>(records: seq<R>, nameOf: R -> string): (names: set<string>)
    ensures forall k :: 0 <= k < |records| ==> nameOf(records[k]) in names
    ensures forall n :: n in names ==> exists k :: 0 <= k < |records| && nameOf(records[k]) == n
  {
    set k | 0 <= k < |records| :: nameOf(records[k])
  }

  function QuarantineNames(q: seq<QuarantineRecord>): set<string> {
    NameSet(q, (r: QuarantineRecord) => r.name)
  }

  function ValidatedNames(v: seq<ValidatedRecord>): set<string> {
    NameSet(v, (r: ValidatedRecord) => r.name)
  }

  /**
   * The quarantine list after `pop(i)` of the first record named `name`;
   * unchanged when there is none.
   */
  function RemoveFirstNamed(q: seq<QuarantineRecord>, name: string): (r: seq<QuarantineRecord>)
    ensures (forall k :: 0 <= k < |q| ==> q[k].name != name) ==> r == q
  {
    if q == [] then []
    else if q[0].name == name then q[1..]
    else [q[0]] + RemoveFirstNamed(q[1..], name)
  }

  /** Removing the first record named `name` keeps every other record, in order. */
  lemma {:induction false} RemoveFirstNamedAt(q: seq<QuarantineRecord>, name: string, k: nat)
    requires k < |q| && q[k].name == name
    requires forall j :: 0 <= j < k ==> q[j].name != name
    ensures RemoveFirstNamed(q, name) == q[..k] + q[k + 1..]
    decreases k
  {
    if k > 0 {
      RemoveFirstNamedAt(q[1..], name, k - 1);
      assert q[..k] + q[k + 1..] == [q[0]] + (q[1..][..k - 1] + q[1..][k..]);
    }
  }
}
