/**
 * The memory brain itself: its tracking ledger and the five directories it
 * reads and writes, the state transitions of saving, consolidating,
 * quarantining, validating and pruning, and the `MemoryBrain` class whose
 * methods perform them step by step.
 */
module Brain {
  import opened Wrappers
  import opened Seqs
  import opened Text
  import opened Calendar
  import opened Ledger
  import opened Tiers
  import opened Retrieval
  import opened Conflicts
  import opened Triggers
  import opened Entities

  /** The markdown files of each directory the brain touches, by file stem. */
  datatype Disk = Disk(
    memory: map<string, string>,     // the memory directory itself: daily files
    distilled: map<string, string>,  // weekly summaries
    quarantine: map<string, string>, // entities awaiting validation
    entities: map<string, string>,   // validated entities
    archive: map<string, string>)    // pruned daily files

  datatype State = State(disk: Disk, tracking: Tracking)

  /** What indexing a list-valued ledger key by a date or a label raises. */
  const NotADict: Error := TypeError("list indices must be integers or slices, not str")

  /** The text of a file, or "" when it does not exist yet (append mode creates it). */
  function FileText(files: map<string, string>, stem: string): string {
    if stem in files then files[stem] else ""
  }

  // ---------------------------------------------------------------------------
  // Saving to the daily file
  // ---------------------------------------------------------------------------

  datatype SavedDaily = SavedDaily(file: string, date: string, category: string, importance: string)

  /**
   * `save_daily_memory`: append a block to today's file, then record the
   * first 100 characters under today's date in the ledger. When the ledger's
   * `daily_files` is a list the append has already happened and the
   * recording raises.
   */
  function SaveStep(s: State, content: string, importance: string, category: string, now: Instant)
    : (out: (State, Result<SavedDaily>))
    requires ValidInstant(now)
    ensures var today := FormatDate(now.date);
            today in out.0.disk.memory
            && StartsWith(out.0.disk.memory[today], FileText(s.disk.memory, today))
            && Contains(out.0.disk.memory[today], content)
            && out.0.disk.memory - {today} == s.disk.memory - {today}
            && out.0.disk == s.disk.(memory := out.0.disk.memory)
    ensures var today := FormatDate(now.date);
            out.0.disk.memory[today] == FileText(s.disk.memory, today) + DailyBlock(now, category, importance, content)
    ensures s.tracking.dailyFiles.EmptyList? ==> out.1 == Failure(NotADict) && out.0.tracking == s.tracking
    ensures s.tracking.dailyFiles.Dict? ==>
              var today := FormatDate(now.date);
              var before := s.tracking.dailyFiles.entries;
              var after := out.0.tracking.dailyFiles;
              out.1 == Success(SavedDaily(PathOf(MemoryDir, today), today, category, importance))
              && after.Dict? && today in after.entries
              && after.entries[today] == (if today in before then before[today] else [])
                                         + [DailyNote(Take(content, 100), category, importance, now)]
              && after.entries - {today} == before - {today}
              && out.0.tracking == s.tracking.(dailyFiles := after)
  {
    var today := FormatDate(now.date);
    var block := DailyBlock(now, category, importance, content);
    DailyBlockKeepsContent(now, category, importance, content);
    ContainsInMiddle(FileText(s.disk.memory, today), block, "", content);
    assert FileText(s.disk.memory, today) + block + "" == FileText(s.disk.memory, today) + block;
    var disk := s.disk.(memory := s.disk.memory[today := FileText(s.disk.memory, today) + block]);
    match s.tracking.dailyFiles
    case EmptyList => (State(disk, s.tracking), Failure(NotADict))
    case Dict(days) =>
      var notes := if today in days then days[today] else [];
      var note := DailyNote(Take(content, 100), category, importance, now);
      (State(disk, s.tracking.(dailyFiles := Dict(days[today := notes + [note]]))),
       Success(SavedDaily(PathOf(MemoryDir, today), today, category, importance)))
  }

  // ---------------------------------------------------------------------------
  // Weekly consolidation
  // ---------------------------------------------------------------------------

  datatype Consolidated = Consolidated(file: string, week: string, entries: nat)

  /**
   * `consolidate_to_weekly` for the week starting on `ws`: nothing when none
   * of the seven daily files exists; otherwise the summary file is written
   * and the ledger records it under the week label, overwriting any earlier
   * record for that week (or raises, the file written, when the ledger's
   * `weekly_summaries` is a list).
   */
  function ConsolidateStep(s: State, ws: Date, now: Instant): (out: (State, Result<Option<Consolidated>>))
    requires ValidDate(ws) && ValidInstant(now)
    ensures var entries := Present(WeekStems(ws), s.disk.memory);
            entries == [] ==> out == (s, Success(None))
    ensures var entries := Present(WeekStems(ws), s.disk.memory);
            entries != [] ==>
              out.0.disk == s.disk.(distilled := s.disk.distilled[WeeklyStem(ws) := WeeklySummary(ws, now, entries)])
    ensures var entries := Present(WeekStems(ws), s.disk.memory);
            entries != [] && s.tracking.weeklySummaries.EmptyList? ==>
              out.1 == Failure(NotADict) && out.0.tracking == s.tracking
    ensures var entries := Present(WeekStems(ws), s.disk.memory);
            var file := PathOf(DistilledDir, WeeklyStem(ws));
            entries != [] && s.tracking.weeklySummaries.Dict? ==>
              var before := s.tracking.weeklySummaries.entries;
              out.1 == Success(Some(Consolidated(file, WeekLabel(ws), |entries|)))
              && out.0.tracking == s.tracking.(weeklySummaries :=
                   Dict(before[WeekLabel(ws) := WeeklyRecord(file, |entries|, now)]))
  {
    var entries := Present(WeekStems(ws), s.disk.memory);
    if entries == [] then (s, Success(None))
    else
      var file := PathOf(DistilledDir, WeeklyStem(ws));
      var disk := s.disk.(distilled := s.disk.distilled[WeeklyStem(ws) := WeeklySummary(ws, now, entries)]);
      match s.tracking.weeklySummaries
      case EmptyList => (State(disk, s.tracking), Failure(NotADict))
      case Dict(weeks) =>
        (State(disk, s.tracking.(weeklySummaries := Dict(weeks[WeekLabel(ws) := WeeklyRecord(file, |entries|, now)]))),
         Success(Some(Consolidated(file, WeekLabel(ws), |entries|))))
  }

  /**
   * Consolidation does nothing, and reports nothing, exactly when none of
   * the week's seven daily files exists.
   */
  lemma ConsolidateNothingToDo(s: State, ws: Date, now: Instant)
    requires ValidDate(ws) && ValidInstant(now)
    ensures ConsolidateStep(s, ws, now).1 == Success(None)
            <==> forall k :: 0 <= k < 7 ==> WeekStems(ws)[k] !in s.disk.memory
    ensures ConsolidateStep(s, ws, now).1 == Success(None) ==> ConsolidateStep(s, ws, now).0 == s
  {
    PresentEmpty(WeekStems(ws), s.disk.memory);
  }

  // ---------------------------------------------------------------------------
  // Quarantine and validation
  // ---------------------------------------------------------------------------

  datatype Quarantined = Quarantined(entity: string, file: string, status: string)

  // The fixed lines of a quarantine file.
  const DiscoveredLine: string := "\n\n*Discovered: "
  const ContextHeading: string := "*\n*Status: PENDING VALIDATION*\n\n## Context\n\n"
  const DefaultContext: string := "Discovered during conversation."
  const KeywordsHeading: string := "\n\n## Keywords\n\n- "
  const NextKeyword: string := "\n- "
  const ValidationChecklist: string :=
    "\n\n## Validation\n\n- [ ] Confirm entity exists\n- [ ] Determine entity type (person, project, topic)\n"
    + "- [ ] Add to appropriate collection\n\n---\n\n"
    + "*Auto-generated by MemoryBrain. Must be validated before promotion.*\n"

  /** Everything of the quarantine file after its first line. */
  function QuarantineBody(name: string, context: string, now: Instant): string
    requires ValidInstant(now)
  {
    DiscoveredLine + FormatMinute(now) + ContextHeading
    + (if context == "" then DefaultContext else context)
    + KeywordsHeading + name + NextKeyword + Slug(name) + ValidationChecklist
  }

  const InQuarantine: string := "(IN QUARANTINE)"
  const Validated: string := "(VALIDATED)"

  /** The file `quarantine_entity` writes. */
  function QuarantineText(name: string, context: string, now: Instant): string
    requires ValidInstant(now)
  {
    ("# " + name + " ") + (InQuarantine + QuarantineBody(name, context, now))
  }

  /** `target_collection or "mem_steven"` */
  function TargetCollection(target: Option<string>): (c: string)
    ensures c != ""
    ensures target.Some? && target.value != "" ==> c == target.value
  {
    if target.None? || target.value == "" then "mem_steven" else target.value
  }

  // The lines `validate_entity` appends.
  const DetailsHeading: string := "\n## Validation Details\n"
  const ValidatedLine: string := "- Validated: "
  const CollectionLine: string := "- Target Collection: "
  const KeywordsLine: string := "- Keywords: "

  /** The details `validate_entity` appends to the entity file. */
  function ValidationDetails(collection: string, keywords: seq<string>, now: Instant): string
    requires ValidInstant(now)
  {
    DetailsHeading + ValidatedLine + FormatIso(now) + "\n" + CollectionLine + collection + "\n"
    + (if keywords == [] then "" else KeywordsLine + Join(keywords, ", ") + "\n")
  }

  /** The entity file `validate_entity` writes from the quarantine file's text. */
  function ValidatedText(text: string, collection: string, keywords: seq<string>, now: Instant): string
    requires ValidInstant(now)
  {
    Replace(text, InQuarantine, Validated) + ValidationDetails(collection, keywords, now)
  }

  /**
   * `quarantine_entity`: write the entity's quarantine file (replacing one of
   * the same name) and append one pending record to the ledger.
   */
  function QuarantineStep(s: State, name: string, context: string, now: Instant): (out: (State, Quarantined))
    requires ValidInstant(now)
    ensures var file := PathOf(QuarantineDir, Slug(name));
            out.0.tracking.quarantine == s.tracking.quarantine + [QuarantineRecord(name, file, now, "pending")]
            && out.0.tracking == s.tracking.(quarantine := out.0.tracking.quarantine)
            && out.1 == Quarantined(name, file, "quarantined")
    ensures out.0.disk.quarantine.Keys == s.disk.quarantine.Keys + {Slug(name)}
            && out.0.disk.quarantine[Slug(name)] == QuarantineText(name, context, now)
            && out.0.disk == s.disk.(quarantine := out.0.disk.quarantine)
    ensures out.0.disk.quarantine == s.disk.quarantine[Slug(name) := QuarantineText(name, context, now)]
  {
    var file := PathOf(QuarantineDir, Slug(name));
    (State(s.disk.(quarantine := s.disk.quarantine[Slug(name) := QuarantineText(name, context, now)]),
           s.tracking.(quarantine := s.tracking.quarantine + [QuarantineRecord(name, file, now, "pending")])),
     Quarantined(name, file, "quarantined"))
  }

  /** Quarantining a name twice leaves two ledger records for it but one file. */
  lemma QuarantineTwice(s: State, name: string, context: string, now: Instant)
    requires ValidInstant(now)
    ensures var s2 := QuarantineStep(QuarantineStep(s, name, context, now).0, name, context, now).0;
            var q := s2.tracking.quarantine;
            |q| == |s.tracking.quarantine| + 2 && q[|q| - 2].name == name && q[|q| - 1].name == name
            && s2.disk.quarantine.Keys == s.disk.quarantine.Keys + {Slug(name)}
  {
  }

  /**
   * `validate_entity`: when the entity's quarantine file is missing, an error
   * and no change; otherwise the file moves to the entities directory with
   * its heading marked validated and the validation details appended, the
   * first ledger record of that name leaves the quarantine list, and one
   * validated record is appended.
   */
  function ValidateStep(s: State, name: string, target: Option<string>, keywords: seq<string>, now: Instant)
    : (out: (State, Option<string>))
    requires ValidInstant(now)
    ensures Slug(name) !in s.disk.quarantine ==> out == (s, Some("Entity not in quarantine"))
    ensures Slug(name) in s.disk.quarantine ==>
              var slug := Slug(name);
              var d := out.0.disk;
              out.1.None?
              && d.quarantine == s.disk.quarantine - {slug}
              && slug in d.entities && d.entities - {slug} == s.disk.entities - {slug}
              && d.entities[slug] == ValidatedText(s.disk.quarantine[slug], TargetCollection(target), keywords, now)
              && d == s.disk.(quarantine := d.quarantine, entities := d.entities)
    ensures Slug(name) in s.disk.quarantine ==>
              var t := out.0.tracking;
              t.quarantine == RemoveFirstNamed(s.tracking.quarantine, name)
              && t.validated == s.tracking.validated
                                + [ValidatedRecord(name, PathOf(EntitiesDir, Slug(name)), TargetCollection(target), now)]
              && t == s.tracking.(quarantine := t.quarantine, validated := t.validated)
  {
    var slug := Slug(name);
    if slug !in s.disk.quarantine then (s, Some("Entity not in quarantine"))
    else
      var text := ValidatedText(s.disk.quarantine[slug], TargetCollection(target), keywords, now);
      var record := ValidatedRecord(name, PathOf(EntitiesDir, slug), TargetCollection(target), now);
      (State(s.disk.(quarantine := s.disk.quarantine - {slug}, entities := s.disk.entities[slug := text]),
             s.tracking.(quarantine := RemoveFirstNamed(s.tracking.quarantine, name),
                         validated := s.tracking.validated + [record])),
       None)
  }

  /** Replacing in a quarantine file changes its first line to read "(VALIDATED)", when the name has no parenthesis. */
  lemma HeadingReplaced(name: string, body: string)
    requires '(' !in name
    ensures StartsWith(Replace(("# " + name + " ") + (InQuarantine + body), InQuarantine, Validated),
                       "# " + name + " " + Validated)
  {
    var head := "# " + name + " ";
    assert InQuarantine[0] == '(' && '(' !in head;
    ReplaceAfterHead(head, InQuarantine, Validated, body);
  }

  /** An occurrence right after a head that lacks its first character is the first one replaced. */
  lemma ReplaceAfterHead(head: string, pat: string, repl: string, body: string)
    requires pat != [] && pat[0] !in head
    ensures StartsWith(Replace(head + (pat + body), pat, repl), head + repl)
  {
    var r := Replace(body, pat, repl);
    ReplaceSkips(head, pat + body, pat, repl);
    ReplaceAtStart(pat, body, repl);
    assert head + (repl + r) == (head + repl) + r;
    PrefixOfAppend(head + repl, r);
  }

  /** A quarantine file's heading reads "(VALIDATED)" once validated, when the name has no parenthesis. */
  lemma ValidatedHeading(name: string, context: string, now: Instant)
    requires ValidInstant(now) && '(' !in name
    ensures StartsWith(Replace(QuarantineText(name, context, now), InQuarantine, Validated),
                       "# " + name + " " + Validated)
  {
    HeadingReplaced(name, QuarantineBody(name, context, now));
  }

  /**
   * Quarantining a new name and then validating it restores the quarantine
   * list, leaves no quarantine file for it, and records it as validated in an
   * entity file whose heading reads "(VALIDATED)".
   */
  lemma QuarantineThenValidate(s: State, name: string, context: string, target: Option<string>,
                               keywords: seq<string>, now: Instant)
    requires ValidInstant(now) && '(' !in name
    requires name !in QuarantineNames(s.tracking.quarantine)
    ensures var s2 := ValidateStep(QuarantineStep(s, name, context, now).0, name, target, keywords, now).0;
            var slug := Slug(name);
            s2.tracking.quarantine == s.tracking.quarantine
            && name in ValidatedNames(s2.tracking.validated)
            && slug !in s2.disk.quarantine && s2.disk.quarantine == s.disk.quarantine - {slug}
            && slug in s2.disk.entities
            && StartsWith(s2.disk.entities[slug], "# " + name + " " + Validated)
  {
    QuarantineThenValidateLedger(s, name, context, target, keywords, now);
    QuarantineThenValidateFiles(s, name, context, target, keywords, now);
  }

  /** The ledger half: the pending record added by the quarantine is the one the validation removes. */
  lemma QuarantineThenValidateLedger(s: State, name: string, context: string, target: Option<string>,
                                     keywords: seq<string>, now: Instant)
    requires ValidInstant(now) && name !in QuarantineNames(s.tracking.quarantine)
    ensures var s2 := ValidateStep(QuarantineStep(s, name, context, now).0, name, target, keywords, now).0;
            s2.tracking.quarantine == s.tracking.quarantine && name in ValidatedNames(s2.tracking.validated)
  {
    var s1 := QuarantineStep(s, name, context, now).0;
    var q := s.tracking.quarantine;
    var q1 := s1.tracking.quarantine;
    assert q1[|q|].name == name;
    forall j | 0 <= j < |q| ensures q1[j].name != name {
      assert q1[j] == q[j];
    }
    RemoveFirstNamedAt(q1, name, |q|);
    assert q1[..|q|] + q1[|q| + 1..] == q;
    var s2 := ValidateStep(s1, name, target, keywords, now).0;
    var v := s2.tracking.validated;
    assert v[|v| - 1].name == name;
  }

  /** The files half: the quarantine file becomes the entity file, its heading marked validated. */
  lemma QuarantineThenValidateFiles(s: State, name: string, context: string, target: Option<string>,
                                    keywords: seq<string>, now: Instant)
    requires ValidInstant(now) && '(' !in name
    ensures var s2 := ValidateStep(QuarantineStep(s, name, context, now).0, name, target, keywords, now).0;
            var slug := Slug(name);
            slug !in s2.disk.quarantine && s2.disk.quarantine == s.disk.quarantine - {slug}
            && slug in s2.disk.entities
            && StartsWith(s2.disk.entities[slug], "# " + name + " " + Validated)
  {
    var slug := Slug(name);
    var text := QuarantineText(name, context, now);
    var s1 := QuarantineStep(s, name, context, now).0;
    assert slug in s1.disk.quarantine && s1.disk.quarantine[slug] == text;
    assert s1.disk.quarantine - {slug} == s.disk.quarantine - {slug};
    ValidatedHeading(name, context, now);
    StartsWithExtend(Replace(text, InQuarantine, Validated), ValidationDetails(TargetCollection(target), keywords, now),
                     "# " + name + " " + Validated);
  }

  /** `auto_discover_and_quarantine`'s loop: quarantine each name in turn, with the whole text as context. */
  function QuarantineAll(s: State, names: seq<string>, context: string, now: Instant): (r: State)
    requires ValidInstant(now)
  {
    if names == [] then s
    else QuarantineStep(QuarantineAll(s, names[..|names| - 1], context, now), names[|names| - 1], context, now).0
  }

  /** The ledger `q` is `base` followed by one record for each of `names`, in order. */
  predicate LedgerAppended(base: seq<QuarantineRecord>, q: seq<QuarantineRecord>, names: seq<string>) {
    |q| == |base| + |names| && q[..|base|] == base
    && forall k :: 0 <= k < |names| ==> q[|base| + k].name == names[k]
  }

  /**
   * Quarantining a list of names keeps the ledger's validated records and
   * its quarantine records, and appends one quarantine record per name, in order.
   */
  lemma {:induction false} QuarantineAllAppends(s: State, names: seq<string>, context: string, now: Instant)
    requires ValidInstant(now)
    ensures QuarantineAll(s, names, context, now).tracking.validated == s.tracking.validated
    ensures LedgerAppended(s.tracking.quarantine, QuarantineAll(s, names, context, now).tracking.quarantine, names)
  {
    if names == [] {
      assert s.tracking.quarantine[..|s.tracking.quarantine|] == s.tracking.quarantine;
    } else {
      var init := names[..|names| - 1];
      var name := names[|names| - 1];
      QuarantineAllAppends(s, init, context, now);
      var prev := QuarantineAll(s, init, context, now);
      var q := QuarantineStep(prev, name, context, now).0.tracking.quarantine;
      LedgerGrows(s.tracking.quarantine, prev.tracking.quarantine, q, init, name);
      FrontAndLast(names);
    }
  }

  /** One more name quarantined: one more record at the end of the ledger, carrying that name. */
  lemma LedgerGrows(base: seq<QuarantineRecord>, prev: seq<QuarantineRecord>, q: seq<QuarantineRecord>,
                    init: seq<string>, name: string)
    requires LedgerAppended(base, prev, init)
    requires |q| == |prev| + 1 && q[..|prev|] == prev && q[|prev|].name == name
    ensures LedgerAppended(base, q, init + [name])
  {
    assert q[..|base|] == prev[..|base|];
    forall k | 0 <= k < |init + [name]| ensures q[|base| + k].name == (init + [name])[k] {
      if k < |init| {
        assert q[|base| + k] == prev[|base| + k];
      }
    }
  }

  /** Quarantining one more name extends the run by one step and one receipt. */
  lemma QuarantineAllSnoc(s: State, names: seq<string>, name: string, context: string, now: Instant)
    requires ValidInstant(now)
    ensures QuarantineAll(s, names + [name], context, now) == QuarantineStep(QuarantineAll(s, names, context, now), name, context, now).0
    ensures Receipts(names + [name]) == Receipts(names) + [Quarantined(name, PathOf(QuarantineDir, Slug(name)), "quarantined")]
  {
    assert (names + [name])[..|names|] == names;
  }

  /**
   * After the discovered names are quarantined (the list keeps its records
   * and gains one per name, in order), discovering in the same text again
   * finds nothing.
   */
  lemma RediscoveryFindsNothing(text: string, q: seq<QuarantineRecord>, v: seq<ValidatedRecord>, order: seq<string>,
                                rq: seq<QuarantineRecord>)
    requires IsListing(order, Discovered(text, q, v))
    requires LedgerAppended(q, rq, order)
    ensures Discovered(text, rq, v) == {}
  {
    NamesAfterAppend(q, rq, order);
    var all := FindAll(text, 0);
    forall x | x in all ensures !IsNew(x, rq, v) {
      if IsNew(x, q, v) {
        NewMatchesExact(all, q, v, x);
        assert x in Discovered(text, q, v);
        var k :| 0 <= k < |order| && order[k] == x;
      }
    }
    forall x | x in Discovered(text, rq, v) ensures false {
      NewMatchesExact(all, rq, v, x);
    }
  }

  /** After `auto_discover_and_quarantine`, discovering in the same text again finds nothing. */
  lemma AutoDiscoverIsIdempotent(s: State, text: string, order: seq<string>, now: Instant)
    requires ValidInstant(now)
    requires IsListing(order, Discovered(text, s.tracking.quarantine, s.tracking.validated))
    ensures var r := QuarantineAll(s, order, text, now);
            Discovered(text, r.tracking.quarantine, r.tracking.validated) == {}
  {
    QuarantineAllAppends(s, order, text, now);
    var r := QuarantineAll(s, order, text, now);
    RediscoveryFindsNothing(text, s.tracking.quarantine, s.tracking.validated, order, r.tracking.quarantine);
  }

  /** Appending records for `order` keeps the earlier quarantined names and adds the new ones. */
  lemma NamesAfterAppend(q: seq<QuarantineRecord>, rq: seq<QuarantineRecord>, order: seq<string>)
    requires LedgerAppended(q, rq, order)
    ensures QuarantineNames(q) <= QuarantineNames(rq)
    ensures forall k :: 0 <= k < |order| ==> order[k] in QuarantineNames(rq)
  {
    forall n | n in QuarantineNames(q) ensures n in QuarantineNames(rq) {
      var k :| 0 <= k < |q| && q[k].name == n;
      assert rq[k] == rq[..|q|][k];
    }
    forall k | 0 <= k < |order| ensures order[k] in QuarantineNames(rq) {
      assert rq[|q| + k].name == order[k];
    }
  }

  /** The results `auto_discover_and_quarantine` collects, one per quarantined name. */
  function Receipts(names: seq<string>): (r: seq<Quarantined>)
    ensures |r| == |names|
    ensures forall k :: 0 <= k < |names| ==> r[k] == Quarantined(names[k], PathOf(QuarantineDir, Slug(names[k])), "quarantined")
  {
    if names == [] then []
    else Receipts(names[..|names| - 1]) + [Quarantined(names[|names| - 1], PathOf(QuarantineDir, Slug(names[|names| - 1])), "quarantined")]
  }

  // ---------------------------------------------------------------------------
  // Pruning
  // ---------------------------------------------------------------------------

  predicate IsWeekly(stem: string) {
    StartsWith(stem, "Week_")
  }

  /** The listed stems a prune with this cutoff archives, in listing order. */
  function ArchivedStems(order: seq<string>, cutoff: Instant): seq<string> {
    if order == [] then []
    else
      var n := order[|order| - 1];
      ArchivedStems(order[..|order| - 1], cutoff) + (if !IsWeekly(n) && Archivable(n, cutoff) then [n] else [])
  }

  /** The listed stems a prune counts as kept: neither weekly nor archivable, unparseable names included. */
  function KeptStems(order: seq<string>, cutoff: Instant): seq<string> {
    if order == [] then []
    else
      var n := order[|order| - 1];
      KeptStems(order[..|order| - 1], cutoff) + (if !IsWeekly(n) && !Archivable(n, cutoff) then [n] else [])
  }

  /** The listed stems that are not weekly summaries. */
  function DailyStems(order: seq<string>): seq<string> {
    if order == [] then []
    else
      var n := order[|order| - 1];
      DailyStems(order[..|order| - 1]) + (if !IsWeekly(n) then [n] else [])
  }

  /** Every file other than a weekly summary is either archived or kept, never both. */
  lemma {:induction false} PrunePartition(order: seq<string>, cutoff: Instant)
    ensures |ArchivedStems(order, cutoff)| + |KeptStems(order, cutoff)| == |DailyStems(order)|
  {
    if order != [] {
      PrunePartition(order[..|order| - 1], cutoff);
    }
  }

  /** A stem is archived exactly when it is listed, not weekly, and its date lies before the cutoff. */
  lemma {:induction false} ArchivedStemsExact(order: seq<string>, cutoff: Instant, x: string)
    ensures x in ArchivedStems(order, cutoff) <==> x in order && !IsWeekly(x) && Archivable(x, cutoff)
  {
    if order != [] {
      var init := order[..|order| - 1];
      ArchivedStemsExact(init, cutoff, x);
      assert order == init + [order[|order| - 1]];
    }
  }

  /** A stem is kept exactly when it is listed, not weekly, and undated or dated on or after the cutoff. */
  lemma {:induction false} KeptStemsExact(order: seq<string>, cutoff: Instant, x: string)
    ensures x in KeptStems(order, cutoff)
            <==> x in order && !IsWeekly(x) && (ParseDate(x).None? || InDailyWindow(x, cutoff))
  {
    if order != [] {
      var init := order[..|order| - 1];
      KeptStemsExact(init, cutoff, x);
      assert order == init + [order[|order| - 1]];
    }
  }

  /** `files` without the entries named in `stems`. */
  function Without(files: map<string, string>, stems: seq<string>): (r: map<string, string>)
    ensures forall k :: k in r <==> k in files && k !in stems
    ensures forall k :: k in r ==> r[k] == files[k]
  {
    map k | k in files && k !in stems :: files[k]
  }

  /** The entries of `files` named in `stems`, as they arrive in the archive. */
  function MovedFiles(files: map<string, string>, stems: seq<string>): (r: map<string, string>)
    ensures forall k :: k in r <==> k in files && k in stems
    ensures forall k :: k in r ==> r[k] == files[k]
  {
    map k | k in files && k in stems :: files[k]
  }

  /** One more listed stem: the archived and kept lists grow by at most that stem. */
  lemma PruneSnoc(order: seq<string>, stem: string, cutoff: Instant)
    ensures ArchivedStems(order + [stem], cutoff)
            == ArchivedStems(order, cutoff) + (if !IsWeekly(stem) && Archivable(stem, cutoff) then [stem] else [])
    ensures KeptStems(order + [stem], cutoff)
            == KeptStems(order, cutoff) + (if !IsWeekly(stem) && !Archivable(stem, cutoff) then [stem] else [])
  {
    assert (order + [stem])[..|order|] == order;
  }

  /** Archiving one more stem takes it out of the directory and puts it, unchanged, into the archive. */
  lemma MoveOne(files: map<string, string>, archive: map<string, string>, stems: seq<string>, stem: string)
    requires stem in files
    ensures Without(files, stems + [stem]) == Without(files, stems) - {stem}
    ensures archive + MovedFiles(files, stems + [stem]) == (archive + MovedFiles(files, stems))[stem := files[stem]]
  {
  }

  /** Pruning loses no daily file: each stays where it was or arrives unchanged in the archive. */
  lemma PruneLosesNothing(files: map<string, string>, archive: map<string, string>, stems: seq<string>, k: string)
    requires k in files
    ensures (k in Without(files, stems) && Without(files, stems)[k] == files[k])
            || (k in archive + MovedFiles(files, stems) && (archive + MovedFiles(files, stems))[k] == files[k])
  {
  }

  // ---------------------------------------------------------------------------
  // Results of the queries
  // ---------------------------------------------------------------------------

  /** `query`'s result: the daily and weekly hits and the unsorted vector hits. */
  datatype QueryResult = QueryResult(daily: seq<DailyHit>, weekly: seq<WeeklyHit>, vectors: seq<Hit>)

  /** `query_with_fallback`'s result, tagged with where the vector hits came from. */
  datatype FallbackResult = FallbackResult(source: string, daily: seq<DailyHit>, weekly: seq<WeeklyHit>, vectors: seq<Hit>)

  /** The lines `content += …` that render one section of the summary. */
  method AppendSection(content: string, title: string, items: seq<string>) returns (out: string)
    ensures out == content + Section(title, items)
  {
    if items == [] {
      return content + "";
    }
    var head := "## " + title + "\n";
    var top := Take(items, 5);
    var listed := "";
    for i := 0 to |top|
      invariant listed == Bullets(top[..i])
    {
      BulletsStep(top, i);
      listed := listed + Bullet(top[i]);
    }
    assert top[..|top|] == top;
    var section := head + listed + "\n";
    assert section == Section(title, items);
    out := content + section;
  }

  /** The loop of `consolidate_to_weekly` that reads the week's seven daily files that exist, Monday first. */
  method GatherWeek(ws: Date, files: map<string, string>) returns (entries: seq<string>)
    requires ValidDate(ws)
    ensures entries == Present(WeekStems(ws), files)
  {
    var stems := WeekStems(ws);
    entries := [];
    for k := 0 to 7
      invariant entries == Present(stems[..k], files)
    {
      assert stems[..k + 1][..k] == stems[..k];
      var dateStr := FormatDate(AddDays(ws, k));
      if dateStr in files {
        entries := entries + [files[dateStr]];
      }
    }
    assert stems[..7] == stems;
  }

  /** The steps of `consolidate_to_weekly` for the week starting on `ws`. */
  method ConsolidateWeek(s: State, ws: Date, now: Instant) returns (after: State, r: Result<Option<Consolidated>>)
    requires ValidDate(ws) && ValidInstant(now)
    ensures (after, r) == ConsolidateStep(s, ws, now)
  {
    var weekEntries := GatherWeek(ws, s.disk.memory);
    if weekEntries == [] {
      return s, Success(None);
    }
    var content := SummaryText(ws, now, weekEntries);
    var stem := WeeklyStem(ws);
    var disk := s.disk.(distilled := s.disk.distilled[stem := content]);
    if s.tracking.weeklySummaries.EmptyList? {
      return State(disk, s.tracking), Failure(NotADict);
    }
    var file := PathOf(DistilledDir, stem);
    var weeks := s.tracking.weeklySummaries.entries;
    after := State(disk, s.tracking.(weeklySummaries := Dict(weeks[WeekLabel(ws) := WeeklyRecord(file, |weekEntries|, now)])));
    r := Success(Some(Consolidated(file, WeekLabel(ws), |weekEntries|)));
  }

  /** The loop of `discover_entities`: every match of the text that is new to the ledger. */
  method NewPhrases(text: string, q: seq<QuarantineRecord>, v: seq<ValidatedRecord>) returns (found: set<string>)
    ensures found == Discovered(text, q, v)
  {
    var matches := FindAll(text, 0);
    var discovered: seq<string> := [];
    for t := 0 to |matches|
      invariant discovered == NewMatches(matches[..t], q, v)
    {
      var m := matches[t];
      var quarantined := QuarantineNames(q);
      var validated := ValidatedNames(v);
      assert matches[..t + 1][..t] == matches[..t];
      if m !in StopWords && TokenCount(m) <= 4 && m !in quarantined && m !in validated {
        discovered := discovered + [m];
      }
    }
    assert matches[..|matches|] == matches;
    found := set x | x in discovered;
  }

  /** The text `consolidate_to_weekly` writes for a week with the given daily texts. */
  method SummaryText(ws: Date, now: Instant, entries: seq<string>) returns (content: string)
    requires ValidDate(ws) && ValidInstant(now)
    ensures content == WeeklySummary(ws, now, entries)
  {
    var decisions, preferences, actions := SortIntoBuckets(entries);
    content := SummaryHeader(ws, now, |entries|);
    content := AppendSection(content, "Decisions", decisions);
    content := AppendSection(content, "Preferences", preferences);
    content := AppendSection(content, "Action Items", actions);
    content := content + SummaryFooter;
  }

  /**
   * The loop of `consolidate_to_weekly` that sorts the week's texts into
   * decisions, preferences and action items, each text into the first
   * bucket whose keywords its lowercase form contains.
   */
  method SortIntoBuckets(entries: seq<string>) returns (decisions: seq<string>, preferences: seq<string>, actions: seq<string>)
    ensures decisions == Bucketed(entries, Decisions)
    ensures preferences == Bucketed(entries, Preferences)
    ensures actions == Bucketed(entries, Actions)
  {
    decisions, preferences, actions := [], [], [];
    for i := 0 to |entries|
      invariant decisions == Bucketed(entries[..i], Decisions)
      invariant preferences == Bucketed(entries[..i], Preferences)
      invariant actions == Bucketed(entries[..i], Actions)
    {
      assert entries[..i + 1][..i] == entries[..i];
      match BucketOf(entries[i])
      case Decisions => decisions := decisions + [entries[i]];
      case Preferences => preferences := preferences + [entries[i]];
      case Actions => actions := actions + [entries[i]];
      case Unsorted =>
    }
    assert entries[..|entries|] == entries;
  }

  /** The loop of `validate_entity` that pops the first ledger record with the entity's name. */
  method PopFirstNamed(quarantine: seq<QuarantineRecord>, name: string) returns (q: seq<QuarantineRecord>)
    ensures q == RemoveFirstNamed(quarantine, name)
  {
    q := quarantine;
    var i := 0;
    while i < |q|
      invariant 0 <= i <= |q| && q == quarantine
      invariant forall j :: 0 <= j < i ==> q[j].name != name
    {
      if q[i].name == name {
        RemoveFirstNamedAt(q, name, i);
        q := q[..i] + q[i + 1..];
        return;
      }
      i := i + 1;
    }
  }

  // ---------------------------------------------------------------------------
  // The brain
  // ---------------------------------------------------------------------------

  class MemoryBrain {
    var disk: Disk
    var tracking: Tracking
    /** The embedding model and the vector store client. */
    const store: Store

    /** `__init__`: the ledger is loaded from what is stored, if anything. */
    constructor (stored: Option<StoredTracking>, store: Store, disk: Disk)
      ensures this.disk == disk && this.store == store && tracking == LoadTracking(stored)
    {
      this.disk := disk;
      this.store := store;
      this.tracking := LoadTracking(stored);
    }

    /** `save_daily_memory` */
    method SaveDailyMemory(content: string, importance: string, category: string, now: Instant)
      returns (r: Result<SavedDaily>)
      requires ValidInstant(now)
      modifies this
      ensures (State(disk, tracking), r) == SaveStep(State(old(disk), old(tracking)), content, importance, category, now)
    {
      ghost var before := tracking.dailyFiles;
      var today := FormatDate(now.date);
      var entry := DailyBlock(now, category, importance, content);
      disk := disk.(memory := disk.memory[today := FileText(disk.memory, today) + entry]);
      if tracking.dailyFiles.EmptyList? {
        return Failure(NotADict);
      }
      var days := tracking.dailyFiles.entries;
      if today !in days {
        days := days[today := []];
      }
      var note := DailyNote(Take(content, 100), category, importance, now);
      days := days[today := days[today] + [note]];
      assert days == before.entries[today := (if today in before.entries then before.entries[today] else []) + [note]];
      tracking := tracking.(dailyFiles := Dict(days));
      r := Success(SavedDaily(PathOf(MemoryDir, today), today, category, importance));
    }

    /** `query_daily_memory`: the directory is listed in some order `order`. */
    method QueryDailyMemory(query: string, days: int, now: Instant) returns (hits: seq<DailyHit>, ghost order: seq<string>)
      requires ValidInstant(now)
      ensures IsListing(order, disk.memory.Keys)
      ensures hits == DailyHits(order, disk.memory, query, MinusDays(now, days))
    {
      var cutoff := MinusDays(now, days);
      hits := [];
      order := [];
      var rest := disk.memory.Keys;
      while rest != {}
        invariant Partial(order, rest, disk.memory.Keys)
        invariant hits == DailyHits(order, disk.memory, query, cutoff)
        decreases |rest|
      {
        var stem :| stem in rest;
        var content := disk.memory[stem];
        var fileDate := ParseDate(stem);
        if fileDate.Some? && !MidnightBefore(fileDate.value, cutoff) {
          if Mentions(content, query) {
            hits := hits + [DailyHit(PathOf(MemoryDir, stem), stem, Take(content, 500))];
          }
        }
        ScanSnoc(order, stem, disk.memory, (stem, text) => DailyVisit(query, cutoff, stem, text));
        PartialStep(order, rest, disk.memory.Keys, stem);
        order := order + [stem];
        rest := rest - {stem};
      }
      PartialDone(order, disk.memory.Keys);
    }

    /** `query_weekly_memory`: the summaries directory is listed in some order `order`. */
    method QueryWeeklyMemory(query: string) returns (hits: seq<WeeklyHit>, ghost order: seq<string>)
      ensures IsListing(order, disk.distilled.Keys)
      ensures hits == WeeklyHits(order, disk.distilled, query)
    {
      hits := [];
      order := [];
      var rest := disk.distilled.Keys;
      while rest != {}
        invariant Partial(order, rest, disk.distilled.Keys)
        invariant hits == WeeklyHits(order, disk.distilled, query)
        decreases |rest|
      {
        var stem :| stem in rest;
        var content := disk.distilled[stem];
        if StartsWith(stem, "Week_") && Mentions(content, query) {
          hits := hits + [WeeklyHit(PathOf(DistilledDir, stem), stem, Take(content, 300))];
        }
        ScanSnoc(order, stem, disk.distilled, (stem, text) => WeeklyVisit(query, stem, text));
        PartialStep(order, rest, disk.distilled.Keys, stem);
        order := order + [stem];
        rest := rest - {stem};
      }
      PartialDone(order, disk.distilled.Keys);
    }

    /** `consolidate_to_weekly`, for the given week start or this week's Monday. */
    method ConsolidateToWeekly(weekStart: Option<Instant>, now: Instant) returns (r: Result<Option<Consolidated>>)
      requires ValidInstant(now) && (weekStart.Some? ==> ValidInstant(weekStart.value))
      modifies this
      ensures var ws := if weekStart.Some? then weekStart.value else DefaultWeekStart(now);
              (State(disk, tracking), r) == ConsolidateStep(State(old(disk), old(tracking)), ws.date, now)
    {
      var ws := if weekStart.Some? then weekStart.value else DefaultWeekStart(now);
      var after;
      after, r := ConsolidateWeek(State(disk, tracking), ws.date, now);
      disk, tracking := after.disk, after.tracking;
    }

    /**
     * `query`: the daily and weekly tiers, then every collection searched with
     * the query's embedding. An embedding failure propagates.
     */
    method Query(query: string, includeDaily: bool, includeWeekly: bool, limit: nat, now: Instant)
      returns (r: Result<QueryResult>, ghost dailyOrder: seq<string>, ghost weeklyOrder: seq<string>)
      requires ValidInstant(now)
      ensures r.Success? <==> store.embed(query).Some?
      ensures r.Failure? ==> r.error == BackendError
      ensures includeDaily ==> IsListing(dailyOrder, disk.memory.Keys)
      ensures includeWeekly ==> IsListing(weeklyOrder, disk.distilled.Keys)
      ensures r.Success? ==>
                r.value.daily == (if includeDaily then DailyHits(dailyOrder, disk.memory, query, MinusDays(now, 7)) else [])
                && r.value.weekly == (if includeWeekly then WeeklyHits(weeklyOrder, disk.distilled, query) else [])
                && r.value.vectors == SearchAll(store, store.embed(query).value, BrainCollections, limit)
    {
      var daily: seq<DailyHit> := [];
      var weekly: seq<WeeklyHit> := [];
      dailyOrder, weeklyOrder := [], [];
      if includeDaily {
        daily, dailyOrder := QueryDailyMemory(query, 7, now);
      }
      if includeWeekly {
        weekly, weeklyOrder := QueryWeeklyMemory(query);
      }
      var vec := store.embed(query);
      if vec.None? {
        return Failure(BackendError), dailyOrder, weeklyOrder;
      }
      var vectors := SearchCollections(store, vec.value, BrainCollections, limit);
      r := Success(QueryResult(daily, weekly, vectors));
    }

    /**
     * `detect_conflicts`: query with `limit`, then compare every pair of
     * vector hits. An embedding failure propagates.
     */
    method DetectConflicts(query: string, limit: nat, now: Instant) returns (r: Result<Option<seq<Conflict>>>)
      requires ValidInstant(now)
      ensures r.Success? <==> store.embed(query).Some?
      ensures r.Success? ==>
                var v := SearchAll(store, store.embed(query).value, BrainCollections, limit);
                (|v| < 2 ==> r.value.None?)
                && (|v| >= 2 ==> InRange(v, ConflictPairs(v, |v|, IsConflict)) && (r.value.None? <==> ConflictPairs(v, |v|, IsConflict) == []))
                && (r.value.Some? ==> r.value.value == Records(v, ConflictPairs(v, |v|, IsConflict)) && r.value.value != [])
    {
      var results, _, _ := Query(query, true, true, limit, now);
      if results.Failure? {
        return Failure(results.error);
      }
      var conflicts := FindConflicts(results.value.vectors);
      r := Success(conflicts);
    }

    /** `_file_based_search`: the memory directory is listed in some order `order`. */
    method FileBasedSearch(query: string) returns (hits: seq<Hit>, ghost order: seq<string>)
      ensures IsListing(order, disk.memory.Keys)
      ensures hits == FileHits(order, disk.memory, query)
    {
      var files := disk.memory;
      hits := [];
      order := [];
      var rest := files.Keys;
      while rest != {}
        invariant Partial(order, rest, files.Keys)
        invariant hits == FileHits(order, files, query)
        decreases |rest|
      {
        var stem :| stem in rest;
        var found := VisitFile(query, stem, files[stem]);
        FileHitsSnoc(order, stem, files, query);
        hits := hits + found;
        PartialStep(order, rest, files.Keys, stem);
        order := order + [stem];
        rest := rest - {stem};
      }
      PartialDone(order, files.Keys);
    }

    /**
     * `query_with_fallback`: tagged "qdrant" with five hits per collection
     * when the query can be embedded, otherwise tagged "files" with the grep
     * results; a failing collection does not cause the fallback.
     */
    method QueryWithFallback(query: string, includeDaily: bool, includeWeekly: bool, now: Instant)
      returns (r: FallbackResult, ghost dailyOrder: seq<string>, ghost weeklyOrder: seq<string>, ghost fileOrder: seq<string>)
      requires ValidInstant(now)
      ensures r.source == (if store.embed(query).Some? then "qdrant" else "files")
      ensures includeDaily ==> IsListing(dailyOrder, disk.memory.Keys)
      ensures includeWeekly ==> IsListing(weeklyOrder, disk.distilled.Keys)
      ensures r.daily == (if includeDaily then DailyHits(dailyOrder, disk.memory, query, MinusDays(now, 7)) else [])
      ensures r.weekly == (if includeWeekly then WeeklyHits(weeklyOrder, disk.distilled, query) else [])
      ensures store.embed(query).Some? ==> r.vectors == SearchAll(store, store.embed(query).value, BrainCollections, 5)
      ensures store.embed(query).None? ==> IsListing(fileOrder, disk.memory.Keys) && r.vectors == FileHits(fileOrder, disk.memory, query)
    {
      var daily: seq<DailyHit> := [];
      var weekly: seq<WeeklyHit> := [];
      dailyOrder, weeklyOrder, fileOrder := [], [], [];
      if includeDaily {
        daily, dailyOrder := QueryDailyMemory(query, 7, now);
      }
      if includeWeekly {
        weekly, weeklyOrder := QueryWeeklyMemory(query);
      }
      var vec := store.embed(query);
      if vec.Some? {
        var vectors := SearchCollections(store, vec.value, BrainCollections, 5);
        return FallbackResult("qdrant", daily, weekly, vectors), dailyOrder, weeklyOrder, fileOrder;
      }
      // the handler queries both tiers again before the grep search
      daily, weekly := [], [];
      if includeDaily {
        daily, dailyOrder := QueryDailyMemory(query, 7, now);
      }
      if includeWeekly {
        weekly, weeklyOrder := QueryWeeklyMemory(query);
      }
      var found;
      found, fileOrder := FileBasedSearch(query);
      r := FallbackResult("files", daily, weekly, found);
    }

    /** `quarantine_entity` */
    method QuarantineEntity(name: string, context: string, now: Instant) returns (r: Quarantined)
      requires ValidInstant(now)
      modifies this
      ensures (State(disk, tracking), r) == QuarantineStep(State(old(disk), old(tracking)), name, context, now)
    {
      var slug := Slug(name);
      var file := PathOf(QuarantineDir, slug);
      disk := disk.(quarantine := disk.quarantine[slug := QuarantineText(name, context, now)]);
      tracking := tracking.(quarantine := tracking.quarantine + [QuarantineRecord(name, file, now, "pending")]);
      r := Quarantined(name, file, "quarantined");
    }

    /** `validate_entity`: `Some(message)` is the error result, `None` what a successful call returns. */
    method ValidateEntity(name: string, target: Option<string>, keywords: seq<string>, now: Instant)
      returns (r: Option<string>)
      requires ValidInstant(now)
      modifies this
      ensures (State(disk, tracking), r) == ValidateStep(State(old(disk), old(tracking)), name, target, keywords, now)
    {
      var slug := Slug(name);
      if slug !in disk.quarantine {
        return Some("Entity not in quarantine");
      }
      var collection := TargetCollection(target);
      var content := Replace(disk.quarantine[slug], InQuarantine, Validated);
      content := content + ValidationDetails(collection, keywords, now);
      disk := disk.(quarantine := disk.quarantine - {slug}, entities := disk.entities[slug := content]);
      var q := PopFirstNamed(tracking.quarantine, name);
      tracking := tracking.(quarantine := q);
      tracking := tracking.(validated := tracking.validated
                                         + [ValidatedRecord(name, PathOf(EntitiesDir, slug), collection, now)]);
      r := None;
    }

    /**
     * `prune_old_files`: the memory directory is listed in some order
     * `order`; every dated daily file before the cutoff moves to the archive.
     */
    method PruneOldFiles(retention: Option<int>, configured: Option<int>, now: Instant)
      returns (pruned: nat, kept: nat, ghost order: seq<string>)
      requires ValidInstant(now)
      modifies this
      ensures var cutoff := MinusDays(now, RetentionDays(retention, configured));
              var archived := ArchivedStems(order, cutoff);
              IsListing(order, old(disk).memory.Keys)
              && pruned == |archived| && kept == |KeptStems(order, cutoff)|
              && disk == old(disk).(memory := Without(old(disk).memory, archived),
                                    archive := old(disk).archive + MovedFiles(old(disk).memory, archived))
              && tracking == old(tracking)
    {
      var cutoff := MinusDays(now, RetentionDays(retention, configured));
      var files := disk.memory;
      pruned, kept := 0, 0;
      order := [];
      ghost var archived: seq<string> := [];
      var memory, archive := files, disk.archive;
      var rest := files.Keys;
      while rest != {}
        invariant Partial(order, rest, files.Keys)
        invariant archived == ArchivedStems(order, cutoff)
        invariant pruned == |archived| && kept == |KeptStems(order, cutoff)|
        invariant memory == Without(files, archived)
        invariant archive == old(disk).archive + MovedFiles(files, archived)
        invariant disk == old(disk) && tracking == old(tracking)
        decreases |rest|
      {
        var stem :| stem in rest;
        PruneSnoc(order, stem, cutoff);
        if !StartsWith(stem, "Week_") {
          var fileDate := ParseDate(stem);
          if fileDate.Some? && MidnightBefore(fileDate.value, cutoff) {
            MoveOne(files, old(disk).archive, archived, stem);
            archive := archive[stem := files[stem]];
            memory := memory - {stem};
            archived := archived + [stem];
            pruned := pruned + 1;
          } else {
            kept := kept + 1;
          }
        }
        PartialStep(order, rest, files.Keys, stem);
        order := order + [stem];
        rest := rest - {stem};
      }
      disk := disk.(memory := memory, archive := archive);
      PartialDone(order, files.Keys);
    }

    /**
     * `handle_memory_trigger`, with the trigger detected as intended: nothing
     * happens without a trigger; otherwise its text is saved under the
     * category its pattern implies.
     */
    method HandleMemoryTrigger(text: string, now: Instant) returns (r: Result<Option<SavedDaily>>)
      requires ValidInstant(now)
      modifies this
      ensures DetectTrigger(text).None? ==> r == Success(None) && disk == old(disk) && tracking == old(tracking)
      ensures DetectTrigger(text).Some? ==>
                var t := DetectTrigger(text).value;
                var out := SaveStep(State(old(disk), old(tracking)), t.content, t.importance, CategoryOf(t.detectedTrigger), now);
                State(disk, tracking) == out.0
                && r == (if out.1.Success? then Success(Some(out.1.value)) else Failure(out.1.error))
    {
      var trigger := DetectTrigger(text);
      if trigger.None? {
        return Success(None);
      }
      var category := CategoryOf(trigger.value.detectedTrigger);
      var saved := SaveDailyMemory(trigger.value.content, trigger.value.importance, category, now);
      if saved.Failure? {
        return Failure(saved.error);
      }
      r := Success(Some(saved.value));
    }

    /** `discover_entities`: each match is tested and kept in a list, whose set is returned. */
    method DiscoverEntities(text: string) returns (found: set<string>)
      ensures found == Discovered(text, tracking.quarantine, tracking.validated)
    {
      found := NewPhrases(text, tracking.quarantine, tracking.validated);
    }

    /**
     * `auto_discover_and_quarantine`: every discovered name is quarantined,
     * in the arbitrary order `order` of the set, with the text as context.
     */
    method AutoDiscoverAndQuarantine(text: string, now: Instant) returns (results: seq<Quarantined>, ghost order: seq<string>)
      requires ValidInstant(now)
      modifies this
      ensures IsListing(order, Discovered(text, old(tracking).quarantine, old(tracking).validated))
      ensures State(disk, tracking) == QuarantineAll(State(old(disk), old(tracking)), order, text, now)
      ensures results == Receipts(order)
    {
      var found := DiscoverEntities(text);
      results, order := QuarantineEach(found, text, now);
    }

    /** The loop of `auto_discover_and_quarantine`: each name of `found`, in some order, is quarantined. */
    method QuarantineEach(found: set<string>, context: string, now: Instant) returns (results: seq<Quarantined>, ghost order: seq<string>)
      requires ValidInstant(now)
      modifies this
      ensures IsListing(order, found)
      ensures State(disk, tracking) == QuarantineAll(State(old(disk), old(tracking)), order, context, now)
      ensures results == Receipts(order)
    {
      ghost var start := State(disk, tracking);
      results := [];
      order := [];
      var rest := found;
      while rest != {}
        invariant Partial(order, rest, found)
        invariant State(disk, tracking) == QuarantineAll(start, order, context, now)
        invariant results == Receipts(order)
        decreases |rest|
      {
        var entity :| entity in rest;
        var result := QuarantineEntity(entity, context, now);
        QuarantineAllSnoc(start, order, entity, context, now);
        results := results + [result];
        PartialStep(order, rest, found, entity);
        order := order + [entity];
        rest := rest - {entity};
      }
      PartialDone(order, found);
    }
  }
}
