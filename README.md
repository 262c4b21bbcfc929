# Memory brain: a verified model

This project models the core of a personal memory system built from an
assistant's conversation transcripts, in Dafny. It covers three scripts.

- `scripts/memory_brain.py`: the `MemoryBrain` class. It keeps a tracking
  ledger (`access_tracking.json`) and five directories of markdown files:
  daily files, weekly summaries, quarantined entities, validated entities and
  the archive. Its methods save memories to the day's file, consolidate a
  week into a summary, prune old daily files into the archive, query the
  daily and weekly tiers and the vector collections, fall back to a grep of
  the daily files when the embedding model fails, detect conflicting
  memories, detect memory triggers ("remember this: …"), and discover,
  quarantine and validate named entities.
- `scripts/ingest_sessions.py`: reads session transcripts (one JSON value
  per line) into messages. It keeps the significant messages as memory
  entries and appends each session's entries, as one block of previews, to
  the daily file of the session's first message.
- `scripts/vectorize.py`: routes each memory file to a collection by
  keywords and cuts it into 800-character chunks. Each chunk whose
  embedding succeeds becomes one point, and the indexer upserts the points.
  It also searches all collections and sorts the hits by score.

## How the model is organised

There is one module per file.

Pure logic is written as functions:
- `Text`, `Calendar` and `Sorting`: the Python string, `datetime` and
  `list.sort` behaviour the scripts rely on.
- `Ledger`: the records of the tracking ledger.
- `Tiers`: the daily and weekly tiers.
- `Retrieval`: vector and grep search.
- `Conflicts`, `Triggers` and `Entities`: conflict detection, trigger
  matching and entity discovery.

The stateful parts follow the source's own shape:
- `Brain.MemoryBrain` is a class. Its fields are the disk (a map from file
  stem to text for each directory), the tracking ledger and the external
  store. Its methods update them in place, and each method is proved equal
  to a state-transition function (`SaveStep`, `ConsolidateStep`,
  `QuarantineStep`, `ValidateStep`, `QuarantineAll`) about which the
  lifecycle lemmas are proved.
- Every loop of the scripts is a method with a loop and invariants, proved
  against a specification function. Examples: the conflict pair loops, the
  bucket loop, the week-gathering loop, the discovery loop, the
  line-by-line transcript parser, the chunk loop and the ingestion loop.
- Directory listings (`glob`) come in no promised order. A method that
  lists a directory picks the files one at a time and reports the order it
  used as a ghost out-parameter `order`. Its result is stated for that
  order, and membership lemmas state what holds in every order.
- Exceptions are `Result` values. An exception that the source's own code
  catches is modelled as the branch the source takes.

## Model

| member | source | states |
|---|---|---|
| Ledger.Slug | scripts/memory_brain.py:414 | The entity file stem keeps the name's length, lower-cases each character that is not a space and turns each space into `_` |
| Ledger.LoadTracking | scripts/memory_brain.py:65-84 | Without a stored ledger every key is empty; a stored ledger keeps every key it has, and each missing key becomes an empty list, the map-valued ones included |
| Ledger.NameSet | scripts/memory_brain.py:619-620 | The set of names is exactly the names of the records in the list; it serves both the quarantine and the validated lists |
| Ledger.RemoveFirstNamed | scripts/memory_brain.py:484-487 | With no record of that name the list is unchanged |
| Ledger.RemoveFirstNamedAt | scripts/memory_brain.py:484-487 | When the first record of that name is at index k, the result is the list without index k, the others kept in order |
| Calendar.ParseDate | scripts/memory_brain.py:150 | `strptime("%Y-%m-%d")` accepts only valid dates of years 1 to 9999 |
| Calendar.ParseFormatRoundTrip | scripts/memory_brain.py:148-151 | The name `save_daily_memory` gives a date's file parses back to that date |
| Calendar.AddDays | scripts/memory_brain.py:146 | Adding days to a valid date gives a valid date |
| Calendar.AddDaysBackMonotone | scripts/memory_brain.py:521 | Going further back in days lands strictly earlier |
| Calendar.Weekday | scripts/memory_brain.py:175 | The weekday lies in 0..6 |
| Tiers.DailyBlockKeepsContent | scripts/memory_brain.py:113-119 | The block appended to the day's file contains the saved text verbatim |
| Tiers.DailyVisit | scripts/memory_brain.py:149-162 | A file gives a hit exactly when its name parses as a date not before the cutoff and its text contains the query ignoring case; the hit names the file and date, and its snippet is a prefix of at most 500 characters |
| Tiers.DailyHitsExact | scripts/memory_brain.py:143-164 | A daily hit is reported exactly for a listed file in the window that mentions the query, with its first 500 characters |
| Tiers.WeeklyVisit | scripts/memory_brain.py:257-265 | A file gives a hit exactly when its name starts with `Week_` and it mentions the query; the snippet is a prefix of at most 300 characters |
| Tiers.WeeklyHitsExact | scripts/memory_brain.py:254-266 | A weekly hit is reported exactly for a listed `Week_` file that mentions the query |
| Tiers.DefaultWeekStart | scripts/memory_brain.py:172-175 | The default week start is a Monday at the same time of day as now, and now's date lies `now.weekday()` days after it |
| Tiers.WeekStems | scripts/memory_brain.py:184-192 | A week spans seven daily file names |
| Tiers.Present | scripts/memory_brain.py:184-192 | At most one text is gathered per day of the week |
| Tiers.PresentEmpty | scripts/memory_brain.py:194-195 | Nothing is gathered exactly when none of the week's seven files exists |
| Tiers.BucketOf | scripts/memory_brain.py:207-213 | A text is a decision exactly when its lowercase form contains "[decision]" or "decided"; a preference exactly when it is no decision and contains "prefer" or "like"; an action exactly when it is neither and contains "[action]" or "make sure"; unsorted exactly when it is none of the three |
| Tiers.BucketedMembers | scripts/memory_brain.py:207-213 | A bucket holds exactly the gathered texts that belong to it |
| Tiers.BucketedInOrder | scripts/memory_brain.py:207-213 | Each bucket keeps the order the texts were gathered in |
| Tiers.BucketsPartition | scripts/memory_brain.py:207-213 | The four buckets (the fourth for texts that match none) together count every gathered text exactly once |
| Tiers.BulletsList | scripts/memory_brain.py:217-218 | Every item appears as a bullet of the list |
| Tiers.Section | scripts/memory_brain.py:215-219 | An empty bucket adds nothing; a non-empty one opens with its heading |
| Tiers.SectionListsFirstFive | scripts/memory_brain.py:215-231 | Each of the first five items of a bucket is listed in its section |
| Tiers.SectionIgnoresRest | scripts/memory_brain.py:215-219 | A section depends only on the first five items of its bucket |
| Tiers.RetentionDays | scripts/memory_brain.py:511-519 | The argument wins; without it the configured value is used, and without both the retention is 7 days |
| Tiers.ArchivableOutsideWindow | scripts/memory_brain.py:531 | A dated file is archived by a prune exactly when a daily query with the same day count skips it |
| Tiers.ArchivedByAge | scripts/memory_brain.py:521-531 | The file of the day k days back is archived with retention n exactly when k > n, or k = n and now is past midnight |
| Retrieval.CollectionHits | scripts/memory_brain.py:686-691 | A failing collection contributes nothing; otherwise one hit per point, tagged with the collection, content cut to 200 characters, score kept |
| Retrieval.SearchAllMembers | scripts/memory_brain.py:681-693 | A vector hit is found exactly when a searched collection answered with that point |
| Retrieval.SearchCollections | scripts/memory_brain.py:361-378 | The loop over the collections gives every collection's hits in collection order, skipping failing ones |
| Retrieval.GrepLines | scripts/memory_brain.py:395 | No line of grep's output holds a newline |
| Retrieval.MatchingLines | scripts/memory_brain.py:391-394 | The matching lines are exactly the file's lines that contain the query ignoring case |
| Retrieval.MatchingLinesInFileOrder | scripts/memory_brain.py:391-395 | The matching lines are the lines that contain the query, in file order: result k is line `idx[k]` with increasing indices, and the indices are exactly those of the matching lines, so `[:3]` keeps the first three matches |
| Retrieval.FileVisit | scripts/memory_brain.py:386-402 | A `Week_` file gives nothing; any other gives its first three matching lines (fewer if fewer match), tagged "file" with the path, at score 0.5, at most 200 characters each |
| Retrieval.Quotes | scripts/memory_brain.py:396-402 | One hit per line, in order: the line stripped and cut to 200 characters |
| Retrieval.FileVisitQuotesMatches | scripts/memory_brain.py:391-402 | Each grep hit quotes, in match order, a line of the file that mentions the query |
| Retrieval.FileHitsBound | scripts/memory_brain.py:395 | The fallback reports at most three lines per file |
| Retrieval.VisitFile | scripts/memory_brain.py:387-402 | The per-file loop gives exactly that file's grep hits |
| Retrieval.QuoteLines | scripts/memory_brain.py:395-402 | The per-line loop quotes every matching line in order |
| Conflicts.CheckIndicators | scripts/memory_brain.py:300-305 | The indicator loop reports a conflict exactly when the texts differ and both use a word of the same group |
| Conflicts.RecordOf | scripts/memory_brain.py:308-317 | A record quotes at most 200 leading characters of each memory, typed "contradiction" and resolved by asking the user |
| Conflicts.RowPairsExact | scripts/memory_brain.py:290-305 | Row i reports exactly the pairs (i, j), j > i, whose texts conflict |
| Conflicts.ConflictPairsExact | scripts/memory_brain.py:289-305 | A pair is reported exactly when i < j and the two texts conflict |
| Conflicts.ConflictPairsSound | scripts/memory_brain.py:289-305 | Every reported pair is ordered, in range, and conflicts |
| Conflicts.ConflictPairsComplete | scripts/memory_brain.py:289-305 | Every ordered conflicting pair is reported |
| Conflicts.RowConflicts | scripts/memory_brain.py:290-317 | The inner loop gives the records of row i's conflicting pairs, by increasing j |
| Conflicts.AllConflicts | scripts/memory_brain.py:289-317 | The nested loops give the records of all conflicting pairs, row by row |
| Conflicts.FindConflicts | scripts/memory_brain.py:283-319 | None for fewer than two results or no conflict; otherwise the non-empty list of all conflict records in loop order |
| Conflicts.FindConflictsComplete | scripts/memory_brain.py:289-319 | One conflicting pair is enough for a conflict list to be returned |
| Conflicts.ConflictQuestion | scripts/memory_brain.py:321-334 | No question exactly when there are no conflicts; otherwise the question quotes the first 100 characters of both memories of the first conflict |
| Triggers.SeparatorRun | scripts/memory_brain.py:48 | `[:\s]+` runs greedily over exactly the separator characters |
| Triggers.GroupStart | scripts/memory_brain.py:48 | The group starts after at least one separator, at a character that is not a newline, giving back separators only as far as needed |
| Triggers.LineEnd | scripts/memory_brain.py:48 | `(.+)` stops at the next newline or the end of the text |
| Triggers.MatchAt | scripts/memory_brain.py:48 | A match needs the phrase there, and captures a non-empty text without a newline |
| Triggers.SearchFrom | scripts/memory_brain.py:565 | A search result is a position where the pattern matches, with the group it captures |
| Triggers.SearchFromLeftmost | scripts/memory_brain.py:565 | The search reports the leftmost match; nothing is reported only when no position matches |
| Triggers.SearchFromStep | scripts/memory_brain.py:565 | A match at the current position is reported; otherwise the search moves one position on |
| Triggers.Fires | scripts/memory_brain.py:565-572 | A rule fires exactly when its pattern is found; the trigger carries the rule's importance and pattern, and its content is the stripped group of the match the search finds |
| Triggers.FiresLeftmost | scripts/memory_brain.py:565-572 | The content of a fired trigger is the stripped group of a match at a position before which the pattern matches nowhere |
| Triggers.FirstSome | scripts/memory_brain.py:564-573 | Nothing is found exactly when every outcome is empty |
| Triggers.FirstSomeIsFirst | scripts/memory_brain.py:564-573 | A found outcome is one before which every outcome is empty |
| Triggers.FirstTrigger | scripts/memory_brain.py:564-573 | No trigger exactly when no rule fires |
| Triggers.FirstTriggerIsFirst | scripts/memory_brain.py:564-573 | The trigger reported is that of a rule that fires, with no earlier rule firing |
| Triggers.FirstRuleWins | scripts/memory_brain.py:564-573 | When the first rule fires, its trigger is the one reported |
| Triggers.DetectTrigger | scripts/memory_brain.py:562-573 | As intended: no trigger exactly when none of the six patterns is found; otherwise the trigger of the first pattern found, no earlier pattern being found |
| Triggers.DetectTriggerAsShipped | scripts/memory_brain.py:562-573 | As shipped: every call raises `NameError`, because `re` is not imported at module level |
| Triggers.PhraseLineMatches | scripts/memory_brain.py:48 | A phrase, separators, then text that starts with a non-separator match at the start, capturing the rest of the first line |
| Triggers.MatchCapturesLine | scripts/memory_brain.py:567 | Where the group starts at g, the match captures the line from g to the next newline |
| Triggers.PhraseLineFires | scripts/memory_brain.py:47-54 | Such a message fires the rule whose phrase it starts with |
| Triggers.TriggerShippedRaises | scripts/memory_brain.py:565 | "remember this: …" raises as shipped but fires a trigger as intended |
| Triggers.CategoryOf | scripts/memory_brain.py:582-589 | The category is one of four, and is "decision" exactly when the pattern contains "decide" |
| Triggers.DecidedIsDecision | scripts/memory_brain.py:582-583 | "we decided" saves a decision |
| Triggers.MakeSureIsAction | scripts/memory_brain.py:584-585 | "make sure to" saves an action |
| Triggers.ImportantCategory | scripts/memory_brain.py:586-587 | A phrase that says "important" and has none of the earlier keywords saves an important note |
| Triggers.ImportantIsImportant | scripts/memory_brain.py:586-587 | "this is important" saves an important note |
| Triggers.GeneralCategory | scripts/memory_brain.py:588-589 | A phrase with none of the keywords saves a general note |
| Triggers.RememberIsGeneral | scripts/memory_brain.py:588-589 | "remember this" saves a general note |
| Entities.LowerRun | scripts/memory_brain.py:613 | `[a-z]+` runs over exactly the lowercase letters that follow |
| Entities.SpaceRun | scripts/memory_brain.py:613 | `\s+` runs over exactly the whitespace that follows |
| Entities.WordEnd | scripts/memory_brain.py:613 | A word is a capital followed by at least one lowercase letter, taken greedily |
| Entities.NextWords | scripts/memory_brain.py:613 | Each further word of the repetition ends after the previous one |
| Entities.NextWordsShape | scripts/memory_brain.py:613 | Each repetition ends a stretch that starts with whitespace, ends with a lowercase letter and has the shape of capitalised words separated by whitespace |
| Entities.NextWordsHead | scripts/memory_brain.py:613 | The first repetition is whitespace followed by one word |
| Entities.NextWordsSpaced | scripts/memory_brain.py:613 | Every repetition but the last is followed by whitespace |
| Entities.MatchFrom | scripts/memory_brain.py:613 | A match ends after its start, at a word boundary |
| Entities.WordsShape | scripts/memory_brain.py:613 | Any repetition after the first word ends a stretch of capitalised words, starting with that word and a space |
| Entities.MatchFromParts | scripts/memory_brain.py:613 | A match starts at a word boundary and ends at one of the repetitions after the first word |
| Entities.SliceIsNamePhrase | scripts/memory_brain.py:613 | A stretch of capitalised words separated by whitespace, from a capital to a lowercase letter with whitespace inside, is a name phrase |
| Entities.NamePhraseExamples | scripts/memory_brain.py:613 | "Ada Lovelace" is a name phrase; "ADa Lovelace", "Ada lovelace" and "Ada" are not |
| Entities.MatchIsNamePhrase | scripts/memory_brain.py:613-614 | The text of a match is a name phrase found in the text: two or more words, each a capital followed by lowercase letters, separated by whitespace |
| Entities.FindAllPhrases | scripts/memory_brain.py:614 | Every match of `re.findall` is a name phrase contained in the text |
| Entities.FindAllFirst | scripts/memory_brain.py:614 | A match at a position the scan reaches, with no match starting before it, is the next phrase found: the scan misses no match |
| Entities.FindAllNone | scripts/memory_brain.py:614 | A scan finds nothing exactly when no match starts at or after its position |
| Entities.FindAllSource | scripts/memory_brain.py:614 | Each phrase found is the match that starts at some position at or after the scan's start |
| Entities.NamePhraseTokens | scripts/memory_brain.py:617 | Every name phrase has at least two words |
| Entities.StopWordsAreSingleWords | scripts/memory_brain.py:610-611 | Every stop word is a single word |
| Entities.MatchIsNoStopWord | scripts/memory_brain.py:617 | The stop-word test never rejects a match |
| Entities.NewMatchesExact | scripts/memory_brain.py:616-622 | A phrase is kept exactly when it is a match and passes the test |
| Entities.DiscoveredExact | scripts/memory_brain.py:604-624 | A phrase is discovered exactly when it is matched, has at most four words and has no quarantine or validated record; it then has two to four words and occurs in the text |
| Sorting.SortDesc | scripts/ingest_sessions.py:192 | The sort gives a permutation of its input in non-increasing key order |
| Brain.SaveStep | scripts/memory_brain.py:108-141 | The day's file becomes its old text (empty when absent) followed by the block with the hour and minute, the upper-cased category, the importance and the text, and no other file changes; the ledger gains a 100-character note under today's date, or the save raises `TypeError` when `daily_files` is a list |
| Brain.ConsolidateStep | scripts/memory_brain.py:170-252 | Nothing changes for a week without daily files; otherwise the summary is written and the ledger records the week's label with the number of texts (or raises when `weekly_summaries` is a list) |
| Brain.ConsolidateNothingToDo | scripts/memory_brain.py:194-195 | Consolidation reports nothing exactly when none of the week's seven daily files exists, and then changes nothing |
| Brain.TargetCollection | scripts/memory_brain.py:476 | The target collection, or "mem_steven" when none is given |
| Brain.QuarantineStep | scripts/memory_brain.py:412-456 | The quarantine directory gains or overwrites exactly the entity's file with the quarantine text, one pending record is appended to the ledger, and nothing else changes |
| Brain.QuarantineTwice | scripts/memory_brain.py:441-449 | Quarantining a name twice leaves two records for it but one file |
| Brain.ValidateStep | scripts/memory_brain.py:458-497 | A missing quarantine file gives the error and no change; otherwise the file moves to the entities directory, marked validated and with the details appended, the first record of that name leaves the quarantine list, and one validated record is appended |
| Brain.HeadingReplaced | scripts/memory_brain.py:473 | The replacement marks the first line "(VALIDATED)" when the name holds no parenthesis |
| Brain.ValidatedHeading | scripts/memory_brain.py:473 | A quarantine file's heading reads "(VALIDATED)" after the replacement |
| Brain.QuarantineThenValidate | scripts/memory_brain.py:412-497 | Quarantining a new name and then validating it restores the quarantine list and directory, and leaves the name validated with a "(VALIDATED)" entity file |
| Brain.QuarantineThenValidateLedger | scripts/memory_brain.py:444-496 | The record the quarantine adds is the one the validation removes |
| Brain.QuarantineThenValidateFiles | scripts/memory_brain.py:441-481 | The quarantine file becomes the entity file, its heading marked validated |
| Brain.QuarantineAllAppends | scripts/memory_brain.py:626-633 | Quarantining a list of names keeps every earlier record and appends one record per name, in order |
| Brain.QuarantineAllSnoc | scripts/memory_brain.py:630-632 | One more name adds one quarantine step and one receipt |
| Brain.Receipts | scripts/memory_brain.py:629-633 | One receipt per quarantined name, in order |
| Brain.NamesAfterAppend | scripts/memory_brain.py:619-620 | After the records are appended, every earlier and every new name is quarantined |
| Brain.RediscoveryFindsNothing | scripts/memory_brain.py:616-622 | Once the discovered names are quarantined, discovery in the same text finds nothing |
| Brain.AutoDiscoverIsIdempotent | scripts/memory_brain.py:626-633 | After `auto_discover_and_quarantine`, discovering in the same text again finds nothing |
| Brain.PrunePartition | scripts/memory_brain.py:525-540 | Every listed non-weekly file is counted once, as pruned or as kept |
| Brain.ArchivedStemsExact | scripts/memory_brain.py:525-536 | A file is archived exactly when it is listed, not weekly, and dated before the cutoff |
| Brain.KeptStemsExact | scripts/memory_brain.py:525-540 | A file is kept exactly when it is listed, not weekly, and undated or dated on or after the cutoff |
| Brain.Without | scripts/memory_brain.py:535 | The directory loses exactly the archived files; the others keep their text |
| Brain.MovedFiles | scripts/memory_brain.py:535 | The archive receives exactly the archived files, with their text |
| Brain.MoveOne | scripts/memory_brain.py:535 | Archiving one more file removes it from the directory and puts it, unchanged, into the archive |
| Brain.PruneLosesNothing | scripts/memory_brain.py:525-536 | Every daily file either stays where it was or arrives unchanged in the archive |
| Brain.AppendSection | scripts/memory_brain.py:215-231 | The loop that renders a bucket appends exactly that bucket's section |
| Brain.GatherWeek | scripts/memory_brain.py:184-192 | The loop reads the texts of the week's existing daily files, Monday first |
| Brain.SummaryText | scripts/memory_brain.py:198-233 | The text written is the weekly summary of the gathered texts |
| Brain.SortIntoBuckets | scripts/memory_brain.py:203-213 | The loop puts each text into the first bucket it matches, keeping order |
| Brain.ConsolidateWeek | scripts/memory_brain.py:170-252 | The consolidation steps perform exactly the consolidation transition |
| Brain.NewPhrases | scripts/memory_brain.py:616-624 | The discovery loop returns exactly the discovered phrases |
| Brain.PopFirstNamed | scripts/memory_brain.py:484-487 | The pop loop removes the first record with that name, if any |
| Brain.MemoryBrain.constructor | scripts/memory_brain.py:57-63 | The brain starts from the loaded ledger and the given directories and store |
| Brain.MemoryBrain.SaveDailyMemory | scripts/memory_brain.py:108-141 | The new state and the result are those of the save transition |
| Brain.MemoryBrain.QueryDailyMemory | scripts/memory_brain.py:143-164 | The hits are the daily hits of the listing, with the cutoff `days` days before now |
| Brain.MemoryBrain.QueryWeeklyMemory | scripts/memory_brain.py:254-266 | The hits are the weekly hits of the listing |
| Brain.MemoryBrain.ConsolidateToWeekly | scripts/memory_brain.py:170-252 | The state and result are the consolidation of the given week, or of this week's Monday |
| Brain.MemoryBrain.Query | scripts/memory_brain.py:669-695 | The query fails exactly when the embedding fails; otherwise it holds the requested tiers' hits and every collection's vector hits |
| Brain.MemoryBrain.DetectConflicts | scripts/memory_brain.py:279-319 | Fails exactly when the embedding fails; otherwise None for fewer than two vector hits or no conflicting pair, else the records of all conflicting pairs in loop order |
| Brain.MemoryBrain.FileBasedSearch | scripts/memory_brain.py:380-406 | The hits are the grep hits of the listing |
| Brain.MemoryBrain.QueryWithFallback | scripts/memory_brain.py:340-359 | Tagged "qdrant" with five vector hits per collection when the query embeds, otherwise tagged "files" with the grep hits; the tiers are as requested |
| Brain.MemoryBrain.QuarantineEntity | scripts/memory_brain.py:412-456 | The new state and receipt are those of the quarantine transition |
| Brain.MemoryBrain.ValidateEntity | scripts/memory_brain.py:458-497 | The new state and result are those of the validation transition |
| Brain.MemoryBrain.PruneOldFiles | scripts/memory_brain.py:509-542 | The archived files move unchanged to the archive and the others stay; the counts are those of the archived and kept lists; the ledger is untouched |
| Brain.MemoryBrain.HandleMemoryTrigger | scripts/memory_brain.py:575-598 | Without a trigger nothing changes; otherwise the captured text is saved with the trigger's importance and category |
| Brain.MemoryBrain.DiscoverEntities | scripts/memory_brain.py:604-624 | The result is exactly the set of discovered phrases |
| Brain.MemoryBrain.AutoDiscoverAndQuarantine | scripts/memory_brain.py:626-633 | Each discovered phrase is quarantined once, in some order, with one receipt each |
| Brain.MemoryBrain.QuarantineEach | scripts/memory_brain.py:629-632 | Each name of the set is quarantined in turn |
| Ingest.Get | scripts/ingest_sessions.py:66-67 | `get` finds a value exactly when a member has that key, and gives that member's value |
| Ingest.Keys | scripts/ingest_sessions.py:75 | Iterating an object yields its keys in order |
| Ingest.PartText | scripts/ingest_sessions.py:76-79 | A string part adds itself; a part that is neither a string nor an object adds nothing |
| Ingest.PartsTextAppend | scripts/ingest_sessions.py:74-79 | The text of two runs of parts is the concatenation of their texts, and raises when either raises |
| Ingest.StringPartsConcat | scripts/ingest_sessions.py:74-79 | A list of strings reads as their concatenation |
| Ingest.ContentText | scripts/ingest_sessions.py:70-79 | A string is taken verbatim and a list part by part; a value that cannot be iterated raises |
| Ingest.AssembleText | scripts/ingest_sessions.py:70-79 | The loop builds exactly the content's text |
| Ingest.Timestamp | scripts/ingest_sessions.py:82-95 | The first truthy one of `timestamp`, `createdAt` and `date` decides the time, and with none of them the file's modification time is used; a string is parsed or gives the current time where parsing fails, and any other value gives the current time |
| Ingest.EntryOutcome | scripts/ingest_sessions.py:62-105 | A kept message has role "user" or "assistant" and non-empty text; an entry that is not an object raises `AttributeError` |
| Ingest.LineOutcome | scripts/ingest_sessions.py:58-63 | A blank line or one that does not decode is skipped |
| Ingest.Step | scripts/ingest_sessions.py:57-107 | Once a line has raised, later lines change nothing |
| Ingest.FailureSticks | scripts/ingest_sessions.py:57-107 | An exception raised on some line is the result of the whole file |
| Ingest.SkippedLineInvisible | scripts/ingest_sessions.py:59-60 | A skipped line, wherever it stands, changes nothing |
| Ingest.MessagesGated | scripts/ingest_sessions.py:97-102 | Every message read has role "user" or "assistant" and non-empty text |
| Ingest.ParseEntry | scripts/ingest_sessions.py:62-105 | The handling of one decoded line gives exactly its outcome |
| Ingest.ParseSessionFile | scripts/ingest_sessions.py:53-107 | The line loop gives exactly the messages of the transcript |
| Ingest.ExtractMemoryEntries | scripts/ingest_sessions.py:109-131 | There are never more entries than messages |
| Ingest.EntriesInOrder | scripts/ingest_sessions.py:113-129 | The entries are an order-preserving subsequence of the messages, content and role copied, category "conversation" |
| Ingest.EntriesExact | scripts/ingest_sessions.py:113-129 | An entry is kept exactly when some message without a noise marker and of at least 50 characters becomes it |
| Ingest.Preview | scripts/ingest_sessions.py:149-151 | A preview is the whole entry up to 500 characters, or the first 500 characters followed by "..." |
| Ingest.LinesListEach | scripts/ingest_sessions.py:148-152 | Every entry has its preview line among the lines |
| Ingest.BlockListsFirstTwenty | scripts/ingest_sessions.py:144-154 | Each of the first twenty entries has its preview line in the block |
| Ingest.BlockIgnoresRest | scripts/ingest_sessions.py:144-156 | Two entry lists of one length that agree on their first twenty entries give the same block |
| Ingest.SaveSpec | scripts/ingest_sessions.py:133-156 | No entries: nothing; no session date: `KeyError`; otherwise the session day's file (created if need be) becomes its old text followed by the session's block, no other file changes, and the entry count is returned |
| Ingest.SaveToDailyMemory | scripts/ingest_sessions.py:133-156 | Writing the previews one by one gives exactly the save |
| Ingest.SavedCountExceedsWritten | scripts/ingest_sessions.py:146-156 | A session of more than twenty entries reports all of them, but writes the same file as any session of that length with the same first twenty entries |
| Ingest.SelectedExact | scripts/ingest_sessions.py:176-178 | A file is processed exactly when it is listed and, given a non-empty filter, its path contains it |
| Ingest.SelectedAll | scripts/ingest_sessions.py:176-178 | Without a non-empty filter every file is processed |
| Ingest.Cutoff | scripts/ingest_sessions.py:184-189 | There is a cutoff exactly when `since_hours` is given and non-zero, that many hours before now |
| Ingest.Queue | scripts/ingest_sessions.py:192 | The queue is the selected files, newest first |
| Ingest.QueueMembers | scripts/ingest_sessions.py:176-192 | The queue holds exactly the listed files that pass the filter |
| Ingest.IngestFileCount | scripts/ingest_sessions.py:208-217 | A file read without an exception reports the number of its significant messages |
| Ingest.Advance | scripts/ingest_sessions.py:197-218 | A stale file, or any file after an exception, changes nothing |
| Ingest.Combine | scripts/ingest_sessions.py:215-217 | A count adds to the total; an exception replaces it |
| Ingest.TotalIsEntryCount | scripts/ingest_sessions.py:194-221 | A run that completes returns the number of significant messages of the files it read |
| Ingest.StaleFileIgnored | scripts/ingest_sessions.py:199-204 | A file modified before the cutoff is never read |
| Ingest.IngestFailureSticks | scripts/ingest_sessions.py:197-218 | An exception on one file is the result of the whole run |
| Ingest.IngestOne | scripts/ingest_sessions.py:208-218 | Reading, extracting and saving one file gives exactly its ingestion |
| Ingest.VisitSession | scripts/ingest_sessions.py:197-218 | One pass skips a stale file and ingests any other |
| Ingest.IngestQueue | scripts/ingest_sessions.py:194-221 | The loop over the sorted files gives exactly the run over them |
| Ingest.IngestSessions | scripts/ingest_sessions.py:158-221 | The result and the files written are the run over the selected files, newest first, with the cutoff |
| Vectorize.FirstMatch | scripts/vectorize.py:92-95 | The first collection, in mapping order, with a matching keyword, or none exactly when no collection matches |
| Vectorize.DetectCollection | scripts/vectorize.py:84-97 | The result is a collection of the mapping or the fallback |
| Vectorize.DetectCollectionFirst | scripts/vectorize.py:92-95 | The first matching collection is the one chosen |
| Vectorize.DetectCollectionFallback | scripts/vectorize.py:97 | Without a match the file goes to "mem_sessions" |
| Vectorize.GoalsRouteToSteven | scripts/vectorize.py:35-68 | Mapping order decides: a text that mentions "goals" goes to "mem_steven", whatever else it mentions |
| Vectorize.FileMeta | scripts/vectorize.py:116-133 | Working tier, zero accesses, source and time kept; dated exactly when the stem has at least 10 characters and four leading digits; routed to a mapping collection or the fallback |
| Vectorize.Chunks | scripts/vectorize.py:139-140 | Chunk k is characters 800k up to 800(k+1) of the content, and the chunks cover it |
| Vectorize.ChunksJoin | scripts/vectorize.py:140 | The chunks, joined in order, give back the content |
| Vectorize.ChunkLengths | scripts/vectorize.py:140 | Every chunk but the last holds 800 characters and the last between 1 and 800; empty content gives no chunk |
| Vectorize.ChunkPoint | scripts/vectorize.py:146-155 | A point carries its chunk, index, chunk count, metadata and vector, with an id in 0..2^32-1 |
| Vectorize.PointsFor | scripts/vectorize.py:142-155 | One point per chunk whose embedding is present and non-empty, in chunk order |
| Vectorize.EveryEmbeddedChunkHasPoint | scripts/vectorize.py:143-155 | Every chunk whose embedding counts has its point |
| Vectorize.IndexSpec | scripts/vectorize.py:135-161 | A file is sent only when readable and with points; it counts as indexed exactly when its points were sent and accepted |
| Vectorize.EmptyFileNotIndexed | scripts/vectorize.py:140-161 | An empty file is not indexed |
| Vectorize.IndexedPoints | scripts/vectorize.py:142-155 | An indexed file's points are at most one per chunk, in chunk order, each carrying its chunk and the chunk count |
| Vectorize.IndexFile | scripts/vectorize.py:135-161 | Building the points chunk by chunk gives exactly the indexing of the file |
| Vectorize.IndexAll | scripts/vectorize.py:172-178 | No more files are counted than are listed |
| Vectorize.Tally | scripts/vectorize.py:174-178 | A file counts when indexing returned True; its batch is recorded when sent |
| Vectorize.IndexAllSplit | scripts/vectorize.py:172-180 | The count and batches over two runs of files add up |
| Vectorize.FailureIsolated | scripts/vectorize.py:174-178 | A file whose indexing raises before sending changes nothing for the others |
| Vectorize.IndexDirectory | scripts/vectorize.py:163-180 | Nothing for a missing directory; otherwise the files indexed in listing order, counting those that returned True |
| Vectorize.Targets | scripts/vectorize.py:189 | The collection asked for; else every collection of the given mapping; else the default mapping |
| Vectorize.Tagged | scripts/vectorize.py:199-200 | Each answered point tagged with its collection; nothing when the query raises |
| Vectorize.GatherMembers | scripts/vectorize.py:191-202 | A result is gathered exactly when a searched collection answered with that point |
| Vectorize.SearchMemories | scripts/vectorize.py:182-217 | Nothing when the query cannot be embedded; otherwise a permutation of every gathered point, best score first |
| Vectorize.SearchKeepsAll | scripts/vectorize.py:204 | The sort keeps every result: nothing is cut to the limit |

## Left out

- Calendar.AddDays: Python's `datetime` raises `OverflowError` when a result falls outside years 1 to 9999; the model's year is unbounded and it always returns a date, so the cutoff of `query_daily_memory` (scripts/memory_brain.py:146) and of `prune_old_files` (scripts/memory_brain.py:521) with a day count that large, and the week end computed by `consolidate_to_weekly` for a week starting in the last days of 9999 (scripts/memory_brain.py:178), yield a date where the program raises.
- Calendar.MinusDays: the same gap; subtracting more days than lie between the date and 0001-01-01 gives a date in the model and `OverflowError` in the program.
- Ingest.Cutoff: `datetime.now(timezone.utc) - timedelta(hours=since_hours)` (scripts/ingest_sessions.py:185) raises `OverflowError` when the result falls before year 1 (about 17.7 million hours back) or, for a negative count, after year 9999; the model's cutoff is a number of seconds that always exists, so it ingests where the program raises.
- I/O is modelled as values. The directories are maps from file stem to
  text, the ledger is a value, and the clock is a parameter `now`.
  `save_tracking`, the JSON encoding of the ledger and file permissions are
  not modelled.
- The embedding model, the vector store, the string hash and the JSON
  decoder are opaque functions passed in. Each may fail, modelled as
  `None`. Python's per-process hash randomisation is not modelled; only the
  32-bit bound of point ids is.
- One `now` stands for all the clock readings inside one operation. The
  source reads the clock several times, and the readings may differ near a
  minute or day boundary. It also reads two different clocks: file names,
  headings and cutoffs use local time (`datetime.now()`,
  scripts/memory_brain.py:110, 114, 146, 174, 418, 475, 521), while the
  `timestamp` of every ledger record is UTC (`datetime.now(timezone.utc)`,
  scripts/memory_brain.py:132, 244, 447, 495). The model stores the one
  local `now` in `DailyNote`, `WeeklyRecord`, `QuarantineRecord` and
  `ValidatedRecord`, so its ledger timestamps differ from the source's by
  the whole UTC offset, not only near a boundary.
- Characters are ASCII. `lower()`, `upper()`, `strip()`, `\s` and `[A-Z]`
  do not cover non-ASCII characters here.
- Retrieval.MatchingLines: `grep -i` takes the query as a regular
  expression. The model treats it as a plain substring match.
- Ingest.Timestamp: the file's modification time is given directly as the
  instant its ISO text parses back to. The ISO round trip through
  `dateutil` is not modelled.
- A JSON object keeps its members in written order. A duplicated key
  resolves to the first member, whereas `json.loads` keeps the last.
- The directory order of `glob`, and of `sorted(glob)` in
  `index_directory`, is taken as given. Sorting by name is not modelled.
- Sorting.SortDesc: stated as sorted and a permutation, not as stable.
  Equal keys keep their order in the definition, but no lemma states that.
- `total_messages`, every `print`, and the printing of the first `limit`
  search results are output only. They are not modelled.
- `init_collections`, `create_collection` (including the one at the end of
  `validate_entity`), `status`, `get_quarantine_list`,
  `find_all_session_files`, the command-line entry points and the access
  logs and metrics keys of the ledger are not part of this model. They
  either talk only to the vector store or only print.
- Brain.QuarantineThenValidate: assumes the name holds no '('. Otherwise
  the replacement of "(IN QUARANTINE)" could hit an earlier occurrence
  inside the name.
- Brain.MemoryBrain.Query: the vector hits come back in the order the
  search returns them, as in the code; the model does not sort them.
- Brain.MemoryBrain.QueryWithFallback: the source tag is "qdrant" or
  "files", as in the code.
- Conflicts.ConflictQuestion: quotes the first conflict only, as in the
  code.
- Tiers.BucketOf: the keywords are "[decision]" and "[action]", bracketed,
  as in the code.
- Brain.MemoryBrain.ValidateEntity: returns `None` on success, as in the
  code. No result dictionary is built.
- Ingest.SaveSpec: the whole session goes to the day of its first message
  and reports `len(entries)`, as in the code.
- Entities.MatchIsNoStopWord: in the code, the stop-word test cannot reject
  a match, since every match has two words. The model keeps the test and
  proves that it has no effect.

## Findings

| source | as written | input that shows it | evidently intended | confidence | as-written member | corrected member |
|---|---|---|---|---|---|---|
| scripts/memory_brain.py:562-573 | `detect_memory_trigger` calls `re.search`, but `re` is imported only inside `discover_entities`. Every call raises `NameError`, so `handle_memory_trigger` never saves anything | "remember this: buy milk" | `re` imported at module level, so the first matching trigger fires and its text is saved | not executed | Triggers.DetectTriggerAsShipped (with Triggers.TriggerShippedRaises) | Triggers.DetectTrigger |
