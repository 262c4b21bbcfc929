/**
 * The daily and weekly memory tiers: the block appended to a daily file, the
 * date-window scan over daily files, the bucketing and rendering of a weekly
 * summary, and the age test that decides which daily files are archived.
 */
module Tiers {
  import opened Wrappers
  import opened Seqs
  import opened Text
  import opened Calendar
  import opened Ledger

  // ---------------------------------------------------------------------------
  // Daily files
  // ---------------------------------------------------------------------------

  /** The block `save_daily_memory` appends to the day's file. */
  function DailyBlock(t: Instant, category: string, importance: string, content: string): string
    requires ValidInstant(t)
  {
    "\n## " + FormatHourMinute(t) + " - " + Upper(category) + " [" + importance + "]\n\n"
    + content + "\n\n---\n"
  }

  /** The saved text appears verbatim in the appended block. */
  lemma DailyBlockKeepsContent(t: Instant, category: string, importance: string, content: string)
    requires ValidInstant(t)
    ensures Contains(DailyBlock(t, category, importance, content), content)
  {
    ContainsSelf(content);
    ContainsInMiddle("\n## " + FormatHourMinute(t) + " - " + Upper(category) + " [" + importance + "]\n\n",
                     content, "\n\n---\n", content);
  }

  /** The file's name parses as a date whose midnight is not before `cutoff`. */
  predicate InDailyWindow(stem: string, cutoff: Instant) {
    var d := ParseDate(stem);
    d.Some? && !MidnightBefore(d.value, cutoff)
  }

  datatype DailyHit = DailyHit(file: string, date: string, snippet: string)

  /** What `query_daily_memory` reports for one daily file: a hit, or nothing. */
  function DailyVisit(query: string, cutoff: Instant, stem: string, text: string): (r: seq<DailyHit>)
    ensures |r| <= 1
    ensures r != [] <==> InDailyWindow(stem, cutoff) && Mentions(text, query)
    ensures r != [] ==> r[0].file == PathOf(MemoryDir, stem) && r[0].date == stem
                        && |r[0].snippet| <= 500 && StartsWith(text, r[0].snippet)
  {
    if InDailyWindow(stem, cutoff) && Mentions(text, query)
    then [DailyHit(PathOf(MemoryDir, stem), stem, Take(text, 500))]
    else []
  }

  /** The hits of `query_daily_memory` when the directory lists `order`. */
  function DailyHits(order: seq<string>, files: map<string, string>, query: string, cutoff: Instant): seq<DailyHit>
    requires forall k :: 0 <= k < |order| ==> order[k] in files
  {
    Scan(order, files, (stem, text) => DailyVisit(query, cutoff, stem, text))
  }

  /** A daily hit is reported exactly for a listed file in the window that mentions the query. */
  lemma DailyHitsExact(order: seq<string>, files: map<string, string>, query: string, cutoff: Instant, h: DailyHit)
    requires forall k :: 0 <= k < |order| ==> order[k] in files
    ensures h in DailyHits(order, files, query, cutoff)
            <==> exists k :: 0 <= k < |order| && InDailyWindow(order[k], cutoff)
                             && Mentions(files[order[k]], query)
                             && h == DailyHit(PathOf(MemoryDir, order[k]), order[k], Take(files[order[k]], 500))
  {
    ScanMembership(order, files, (stem, text) => DailyVisit(query, cutoff, stem, text), h);
  }

  /** `query_weekly_memory` on one file of the distilled directory. */
  datatype WeeklyHit = WeeklyHit(file: string, week: string, snippet: string)

  function WeeklyVisit(query: string, stem: string, text: string): (r: seq<WeeklyHit>)
    ensures |r| <= 1
    ensures r != [] <==> StartsWith(stem, "Week_") && Mentions(text, query)
    ensures r != [] ==> r[0].file == PathOf(DistilledDir, stem) && r[0].week == stem
                        && |r[0].snippet| <= 300 && StartsWith(text, r[0].snippet)
  {
    if StartsWith(stem, "Week_") && Mentions(text, query)
    then [WeeklyHit(PathOf(DistilledDir, stem), stem, Take(text, 300))]
    else []
  }

  function WeeklyHits(order: seq<string>, files: map<string, string>, query: string): seq<WeeklyHit>
    requires forall k :: 0 <= k < |order| ==> order[k] in files
  {
    Scan(order, files, (stem, text) => WeeklyVisit(query, stem, text))
  }

  /** A weekly hit is reported exactly for a listed `Week_` file that mentions the query. */
  lemma WeeklyHitsExact(order: seq<string>, files: map<string, string>, query: string, h: WeeklyHit)
    requires forall k :: 0 <= k < |order| ==> order[k] in files
    ensures h in WeeklyHits(order, files, query)
            <==> exists k :: 0 <= k < |order| && StartsWith(order[k], "Week_")
                             && Mentions(files[order[k]], query)
                             && h == WeeklyHit(PathOf(DistilledDir, order[k]), order[k], Take(files[order[k]], 300))
  {
    ScanMembership(order, files, (stem, text) => WeeklyVisit(query, stem, text), h);
  }

  // ---------------------------------------------------------------------------
  // Weekly consolidation
  // ---------------------------------------------------------------------------

  /** The Monday that starts the week of `now`, at the same time of day. */
  function DefaultWeekStart(now: Instant): (r: Instant)
    requires ValidInstant(now)
    ensures ValidInstant(r) && r.micros == now.micros
    ensures Weekday(r.date) == 0
    ensures AddDays(r.date, Weekday(now.date)) == now.date
  {
    AddDaysBackWeekday(now.date, Weekday(now.date));
    AddDaysBackForward(now.date, Weekday(now.date));
    MinusDays(now, Weekday(now.date))
  }

  /** The names of the seven daily files `week_start .. week_start + 6`. */
  function WeekStems(ws: Date): (r: seq<string>)
    requires ValidDate(ws)
    ensures |r| == 7
  {
    seq(7, k requires 0 <= k < 7 => FormatDate(AddDays(ws, k)))
  }

  /** `f"{week_start}_to_{week_end}"` */
  function WeekLabel(ws: Date): string
    requires ValidDate(ws)
  {
    FormatDate(ws) + "_to_" + FormatDate(AddDays(ws, 6))
  }

  /** `f"Week_{week_start}"`, the stem of the summary file. */
  function WeeklyStem(ws: Date): string
    requires ValidDate(ws)
  {
    "Week_" + FormatDate(ws)
  }

  /** The texts of the files among `stems` that exist, in the order of `stems`. */
  function Present(stems: seq<string>, files: map<string, string>): (r: seq<string>)
    ensures |r| <= |stems|
  {
    if stems == [] then []
    else
      var last := stems[|stems| - 1];
      Present(stems[..|stems| - 1], files) + (if last in files then [files[last]] else [])
  }

  /** No text is gathered exactly when none of the files exists. */
  lemma {:induction false} PresentEmpty(stems: seq<string>, files: map<string, string>)
    ensures Present(stems, files) == [] <==> forall k :: 0 <= k < |stems| ==> stems[k] !in files
  {
    if stems != [] {
      PresentEmpty(stems[..|stems| - 1], files);
      var init := stems[..|stems| - 1];
      if Present(stems, files) == [] {
        forall k | 0 <= k < |stems| ensures stems[k] !in files {
          if k < |stems| - 1 {
            assert stems[k] == init[k];
          }
        }
      }
    }
  }

  datatype Bucket = Decisions | Preferences | Actions | Unsorted

  /** The text, in lowercase, mentions a decision. */
  predicate IsDecision(text: string) {
    Contains(Lower(text), "[decision]") || Contains(Lower(text), "decided")
  }

  /** The text, in lowercase, mentions a preference. */
  predicate IsPreference(text: string) {
    Contains(Lower(text), "prefer") || Contains(Lower(text), "like")
  }

  /** The text, in lowercase, mentions an action item. */
  predicate IsAction(text: string) {
    Contains(Lower(text), "[action]") || Contains(Lower(text), "make sure")
  }

  /** The one bucket a daily file's text goes into, tested in priority order on its lowercase form. */
  function BucketOf(text: string): (b: Bucket)
    ensures b == Decisions <==> IsDecision(text)
    ensures b == Preferences <==> !IsDecision(text) && IsPreference(text)
    ensures b == Actions <==> !IsDecision(text) && !IsPreference(text) && IsAction(text)
    ensures b == Unsorted <==> !IsDecision(text) && !IsPreference(text) && !IsAction(text)
  {
    var t := Lower(text);
    if Contains(t, "[decision]") || Contains(t, "decided") then Decisions
    else if Contains(t, "prefer") || Contains(t, "like") then Preferences
    else if Contains(t, "[action]") || Contains(t, "make sure") then Actions
    else Unsorted
  }

  /** The texts of bucket `b`, in the order they were gathered. */
  function Bucketed(entries: seq<string>, b: Bucket): (r: seq<string>)
    ensures |r| <= |entries|
  {
    if entries == [] then []
    else
      var last := entries[|entries| - 1];
      Bucketed(entries[..|entries| - 1], b) + (if BucketOf(last) == b then [last] else [])
  }

  /** A bucket holds exactly the gathered texts that belong to it. */
  lemma {:induction false} BucketedMembers(entries: seq<string>, b: Bucket, x: string)
    ensures x in Bucketed(entries, b) <==> x in entries && BucketOf(x) == b
  {
    if entries != [] {
      var init := entries[..|entries| - 1];
      BucketedMembers(init, b, x);
      assert entries == init + [entries[|entries| - 1]];
    }
  }

  /** Each bucket keeps the gathered order. */
  lemma {:induction false} BucketedInOrder(entries: seq<string>, b: Bucket)
    ensures IsSubsequence(Bucketed(entries, b), entries)
  {
    if entries != [] {
      var init := entries[..|entries| - 1];
      var last := entries[|entries| - 1];
      BucketedInOrder(init, b);
      SubsequenceSnoc(Bucketed(init, b), init, last, BucketOf(last) == b);
      assert entries == init + [last];
    }
  }

  /** The four buckets partition the gathered texts: every text is counted in exactly one. */
  lemma {:induction false} BucketsPartition(entries: seq<string>)
    ensures |Bucketed(entries, Decisions)| + |Bucketed(entries, Preferences)|
            + |Bucketed(entries, Actions)| + |Bucketed(entries, Unsorted)| == |entries|
  {
    if entries != [] {
      BucketsPartition(entries[..|entries| - 1]);
    }
  }

  /** `"- {x.strip()}\n"` */
  function Bullet(item: string): string {
    "- " + Strip(item) + "\n"
  }

  /** `"".join(f"- {x.strip()}\n" for x in items)` */
  function Bullets(items: seq<string>): string {
    if items == [] then "" else Bullets(items[..|items| - 1]) + Bullet(items[|items| - 1])
  }

  /** One more item adds one more bullet at the end. */
  lemma BulletsSnoc(items: seq<string>, x: string)
    ensures Bullets(items + [x]) == Bullets(items) + Bullet(x)
  {
    assert (items + [x])[..|items|] == items;
  }

  /** The bullets of one more item of a list. */
  lemma BulletsStep(items: seq<string>, i: nat)
    requires i < |items|
    ensures Bullets(items[..i + 1]) == Bullets(items[..i]) + Bullet(items[i])
  {
    assert items[..i + 1] == items[..i] + [items[i]];
    BulletsSnoc(items[..i], items[i]);
  }

  /** Every item appears as a bullet of the list. */
  lemma {:induction false} BulletsList(items: seq<string>, k: nat)
    requires k < |items|
    ensures Contains(Bullets(items), Bullet(items[k]))
  {
    var init := items[..|items| - 1];
    var last := Bullet(items[|items| - 1]);
    if k == |items| - 1 {
      ContainsSelf(last);
      ContainsInMiddle(Bullets(init), last, "", last);
      assert Bullets(init) + last + "" == Bullets(items);
    } else {
      assert items[k] == init[k];
      BulletsList(init, k);
      ContainsExtend(Bullets(init), last, Bullet(items[k]));
    }
  }

  /** One section of the summary: omitted when empty, otherwise its first five items. */
  function Section(title: string, items: seq<string>): (r: string)
    ensures items == [] ==> r == ""
    ensures items != [] ==> StartsWith(r, "## " + title + "\n")
  {
    if items == [] then "" else "## " + title + "\n" + Bullets(Take(items, 5)) + "\n"
  }

  /** The first five items of a non-empty bucket are listed in its section. */
  lemma SectionListsFirstFive(title: string, items: seq<string>, k: nat)
    requires k < |items| && k < 5
    ensures Contains(Section(title, items), Bullet(items[k]))
  {
    assert Take(items, 5)[k] == items[k];
    BulletsList(Take(items, 5), k);
    ContainsInMiddle("## " + title + "\n", Bullets(Take(items, 5)), "\n", Bullet(items[k]));
  }

  /** Items past the fifth never reach a section. */
  lemma SectionIgnoresRest(title: string, items: seq<string>)
    requires |items| >= 5
    ensures Section(title, items) == Section(title, items[..5])
  {
    assert Take(items[..5], 5) == Take(items, 5);
  }

  /** The text written to `Week_<week_start>.md`. */
  function WeeklySummary(ws: Date, generated: Instant, entries: seq<string>): string
    requires ValidDate(ws) && ValidInstant(generated)
  {
    SummaryHeader(ws, generated, |entries|)
    + Section("Decisions", Bucketed(entries, Decisions))
    + Section("Preferences", Bucketed(entries, Preferences))
    + Section("Action Items", Bucketed(entries, Actions))
    + SummaryFooter
  }

  /** The title, generation time and entry count that open a weekly summary. */
  function SummaryHeader(ws: Date, generated: Instant, count: nat): string
    requires ValidDate(ws) && ValidInstant(generated)
  {
    "# Weekly Memory Summary - " + FormatDate(ws) + " to " + FormatDate(AddDays(ws, 6)) + "\n\n"
    + "*Generated: " + FormatMinute(generated) + "*\n\n"
    + "## Consolidated from " + NatToString(count) + " daily entries\n\n"
  }

  const SummaryFooter: string := "---\n*This is a weekly distilled summary. See daily files for full detail.*\n"

  // ---------------------------------------------------------------------------
  // Pruning
  // ---------------------------------------------------------------------------

  /** The retention used: the argument, else the configured value, else 7 days. */
  function RetentionDays(argument: Option<int>, configured: Option<int>): (n: int)
    ensures argument.Some? ==> n == argument.value
    ensures argument.None? && configured.Some? ==> n == configured.value
    ensures argument.None? && configured.None? ==> n == 7
  {
    if argument.Some? then argument.value else configured.GetOr(7)
  }

  /** The file's name parses as a date whose midnight lies before `cutoff`. */
  predicate Archivable(stem: string, cutoff: Instant) {
    var d := ParseDate(stem);
    d.Some? && MidnightBefore(d.value, cutoff)
  }

  /** A file with a dated name is archived by a prune exactly when a daily query with the same day count skips it. */
  lemma ArchivableOutsideWindow(stem: string, cutoff: Instant)
    requires ParseDate(stem).Some?
    ensures Archivable(stem, cutoff) <==> !InDailyWindow(stem, cutoff)
  {
  }

  /**
   * The daily file of the day `k` days before `now` is archived with a
   * retention of `n` days exactly when it is more than `n` days old, or
   * exactly `n` days old and `now` is past midnight.
   */
  lemma ArchivedByAge(now: Instant, n: nat, k: nat)
    requires ValidInstant(now)
    requires 1 <= AddDays(now.date, -(k as int)).year <= 9999
    ensures Archivable(FormatDate(AddDays(now.date, -(k as int))), MinusDays(now, n))
            <==> k > n || (k == n && now.micros > 0)
  {
    var d := AddDays(now.date, -(k as int));
    var c := AddDays(now.date, -(n as int));
    ParseFormatRoundTrip(d);
    if k > n {
      AddDaysBackMonotone(now.date, n, k);
    } else if k < n {
      AddDaysBackMonotone(now.date, k, n);
    }
  }
}
