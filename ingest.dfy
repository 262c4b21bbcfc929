/**
 * Session ingestion: the transcripts of the agent's sessions (one JSON
 * value per line) are read into messages, the significant messages become
 * memory entries, and each session's entries are appended, as one block of
 * previews, to the daily file of the session's first message.
 *
 * Decoding a line, parsing a timestamp and the clock are parameters: the
 * decoder is `None` where `json.loads` raises, the timestamp parser is
 * `None` where `dateutil` raises.
 */
module Ingest {
  import opened Wrappers
  import opened Seqs
  import opened Text
  import opened Calendar
  import opened Sorting

  // ---------------------------------------------------------------------------
  // Decoded lines
  // ---------------------------------------------------------------------------

  /** A decoded JSON value. An object keeps its members in their written order. */
  datatype Json =
    | Null
    | Bool(b: bool)
    | Num(x: real)
    | Str(s: string)
    | Arr(items: seq<Json>)
    | Obj(members: seq<(string, Json)>)

  /** `d.get(key)`: the value of the first member with that key. */
  function Get(members: seq<(string, Json)>, key: string): (r: Option<Json>)
    ensures r.Some? <==> exists k :: 0 <= k < |members| && members[k].0 == key
    ensures r.Some? ==> exists k :: 0 <= k < |members| && members[k] == (key, r.value)
  {
    if members == [] then None
    else if members[0].0 == key then Some(members[0].1)
    else
      var r := Get(members[1..], key);
      assert r.Some? ==> members[1..][0..] == members[1..];
      r
  }

  /** The keys of an object, in order: what iterating over a dict yields. */
  function Keys(members: seq<(string, Json)>): (r: seq<string>)
    ensures |r| == |members| && forall k :: 0 <= k < |r| ==> r[k] == members[k].0
  {
    if members == [] then [] else [members[0].0] + Keys(members[1..])
  }

  /** Python's truth value of a decoded value. */
  predicate Truthy(v: Json) {
    match v
    case Null => false
    case Bool(b) => b
    case Num(x) => x != 0.0
    case Str(s) => s != []
    case Arr(items) => items != []
    case Obj(members) => members != []
  }

  // ---------------------------------------------------------------------------
  // Message text
  // ---------------------------------------------------------------------------

  /**
   * What one part of a `content` list adds to the text: the `text` of a dict
   * whose `type` is "text", a string verbatim, nothing otherwise. `None` where
   * the `+=` raises TypeError, because that `text` is not a string.
   */
  function PartText(part: Json): (r: Option<string>)
    ensures part.Str? ==> r == Some(part.s)
    ensures !part.Str? && !part.Obj? ==> r == Some([])
  {
    match part
    case Obj(members) =>
      if Get(members, "type") == Some(Str("text")) then
        match Get(members, "text").GetOr(Str(""))
        case Str(t) => Some(t)
        case _ => None
      else Some([])
    case Str(s) => Some(s)
    case _ => Some([])
  }

  /** The text of a list of parts: their pieces concatenated in order, or `None` once one raises. */
  function PartsText(parts: seq<Json>): (r: Option<string>) {
    if parts == [] then Some([])
    else
      match (PartsText(parts[..|parts| - 1]), PartText(parts[|parts| - 1]))
      case (Some(a), Some(b)) => Some(a + b)
      case _ => None
  }

  /** Concatenating two lists of parts concatenates their texts; a raising part makes the whole raise. */
  lemma {:induction false} PartsTextAppend(a: seq<Json>, b: seq<Json>)
    ensures PartsText(a + b)
            == if PartsText(a).Some? && PartsText(b).Some? then Some(PartsText(a).value + PartsText(b).value) else None
    decreases |b|
  {
    if b == [] {
      assert a + b == a;
      if PartsText(a).Some? {
        assert PartsText(a).value + [] == PartsText(a).value;
      }
    } else {
      var init := b[..|b| - 1];
      PartsTextAppend(a, init);
      assert (a + b)[..|a + b| - 1] == a + init;
      assert (a + b)[|a + b| - 1] == b[|b| - 1];
      var x, y, z := PartsText(a), PartsText(init), PartText(b[|b| - 1]);
      if x.Some? && y.Some? && z.Some? {
        assert PartsText(b) == Some(y.value + z.value);
        assert x.value + (y.value + z.value) == (x.value + y.value) + z.value;
      }
    }
  }

  /** A list of strings reads as their concatenation. */
  lemma {:induction false} StringPartsConcat(parts: seq<Json>)
    requires forall k :: 0 <= k < |parts| ==> parts[k].Str?
    ensures PartsText(parts) == Some(Concat(seq(|parts|, k requires 0 <= k < |parts| => parts[k].s)))
  {
    if parts != [] {
      var init := parts[..|parts| - 1];
      StringPartsConcat(init);
      var all := seq(|parts|, k requires 0 <= k < |parts| => parts[k].s);
      assert all[..|all| - 1] == seq(|init|, k requires 0 <= k < |init| => init[k].s);
    }
  }

  /**
   * The text of a message's `content`: a string verbatim, a list part by
   * part, the keys of a dict (iterating it yields them); `None` where
   * iterating raises TypeError, because the value is not iterable.
   */
  function ContentText(content: Json): (r: Option<string>)
    ensures content.Str? ==> r == Some(content.s)
    ensures content.Arr? ==> r == PartsText(content.items)
    ensures content.Null? || content.Bool? || content.Num? ==> r.None?
  {
    match content
    case Str(s) => Some(s)
    case Arr(items) => PartsText(items)
    case Obj(members) => Some(Concat(Keys(members)))
    case _ => None
  }

  /** The loop of `parse_session_file` that assembles `text_content`. */
  method AssembleText(content: Json) returns (text: Option<string>)
    ensures text == ContentText(content)
  {
    match content {
      case Str(s) =>
        return Some(s);
      case Arr(parts) =>
        var acc := "";
        for i := 0 to |parts|
          invariant PartsText(parts[..i]) == Some(acc)
        {
          assert parts[..i + 1][..i] == parts[..i];
          var piece := PartText(parts[i]);
          if piece.None? {
            PartsTextAppend(parts[..i + 1], parts[i + 1..]);
            assert parts[..i + 1] + parts[i + 1..] == parts;
            return None;
          }
          acc := acc + piece.value;
        }
        assert parts[..|parts|] == parts;
        return Some(acc);
      case Obj(members) =>
        var acc := "";
        var keys := Keys(members);
        for i := 0 to |keys|
          invariant acc == Concat(keys[..i])
        {
          assert keys[..i + 1][..i] == keys[..i];
          acc := acc + keys[i];
        }
        assert keys[..|keys|] == keys;
        return Some(acc);
      case _ =>
        return None;
    }
  }

  // ---------------------------------------------------------------------------
  // Messages
  // ---------------------------------------------------------------------------

  /** A point in time as the transcripts give it: always a valid date and time of day. */
  type Time = t: Instant | ValidInstant(t) witness Instant(Date(2000, 1, 1), 0)

  /** A message kept from a transcript. */
  datatype Message = Message(role: string, content: string, timestamp: Time)

  /**
   * What reading one transcript needs besides its lines: the decoder, the
   * timestamp parser, the file's modification time (as the instant its ISO
   * text parses back to) and the current time.
   */
  datatype Reader = Reader(
    decode: string -> Option<Json>,
    parseTime: string -> Option<Time>,
    fileTime: Time,
    now: Time)

  /** What one line does: nothing, a message, or an exception that ends the whole run. */
  datatype Outcome = Skip | Emit(message: Message) | Raise(error: Error)

  /**
   * The message's time: the first truthy one of `timestamp`, `createdAt` and
   * `date`, else the file's modification time; a string is parsed (the current
   * time where that fails), any other value gives the current time.
   */
  function Timestamp(entry: seq<(string, Json)>, rd: Reader): (t: Time)
    ensures Truthy(Get(entry, "timestamp").GetOr(Null))
            ==> t == ValueTime(Get(entry, "timestamp").value, rd)
    ensures !Truthy(Get(entry, "timestamp").GetOr(Null)) && Truthy(Get(entry, "createdAt").GetOr(Null))
            ==> t == ValueTime(Get(entry, "createdAt").value, rd)
    ensures !Truthy(Get(entry, "timestamp").GetOr(Null)) && !Truthy(Get(entry, "createdAt").GetOr(Null))
            && Truthy(Get(entry, "date").GetOr(Null))
            ==> t == ValueTime(Get(entry, "date").value, rd)
    ensures !Truthy(Get(entry, "timestamp").GetOr(Null)) && !Truthy(Get(entry, "createdAt").GetOr(Null))
            && !Truthy(Get(entry, "date").GetOr(Null))
            ==> t == rd.fileTime
    ensures t == rd.fileTime || t == rd.now || exists s :: rd.parseTime(s) == Some(t)
  {
    var first := Get(entry, "timestamp").GetOr(Null);
    var second := Get(entry, "createdAt").GetOr(Null);
    var third := Get(entry, "date").GetOr(Null);
    var chosen := if Truthy(first) then first else if Truthy(second) then second else third;
    if !Truthy(chosen) then rd.fileTime else ValueTime(chosen, rd)
  }

  /**
   * The time a truthy timestamp value gives: a string is parsed, or the current
   * time where parsing fails; any other value gives the current time.
   */
  function ValueTime(v: Json, rd: Reader): (t: Time)
    ensures !v.Str? ==> t == rd.now
    ensures v.Str? && rd.parseTime(v.s).Some? ==> t == rd.parseTime(v.s).value
    ensures v.Str? && rd.parseTime(v.s).None? ==> t == rd.now
  {
    if v.Str? then rd.parseTime(v.s).GetOr(rd.now) else rd.now
  }

  /**
   * One decoded line. `entry.get` on a value that is not a dict, and `msg.get`
   * on a `message`/`data` that is not a dict, raise AttributeError, which the
   * loop does not catch; a content that cannot be iterated or concatenated
   * raises TypeError, which it does, skipping the line. A message is kept when
   * its text is non-empty and its role is "user" or "assistant".
   */
  function EntryOutcome(entry: Json, rd: Reader): (o: Outcome)
    ensures o.Emit? ==> (o.message.role == "user" || o.message.role == "assistant") && o.message.content != []
    ensures !entry.Obj? ==> o == Raise(AttributeError("get"))
  {
    if !entry.Obj? then Raise(AttributeError("get"))
    else
      var first := Get(entry.members, "message").GetOr(Null);
      var msg := if Truthy(first) then first else Get(entry.members, "data").GetOr(Obj([]));
      if !msg.Obj? then Raise(AttributeError("get"))
      else
        var role := Get(msg.members, "role").GetOr(Str(""));
        match ContentText(Get(msg.members, "content").GetOr(Arr([])))
        case None => Skip
        case Some(text) =>
          if text != [] && (role == Str("user") || role == Str("assistant"))
          then Emit(Message(role.s, text, Timestamp(entry.members, rd)))
          else Skip
  }

  /** One line of a transcript: a blank line or one that does not decode is skipped. */
  function LineOutcome(line: string, rd: Reader): (o: Outcome)
    ensures Strip(line) == [] || rd.decode(line).None? ==> o == Skip
  {
    if Strip(line) == [] then Skip
    else
      match rd.decode(line)
      case None => Skip
      case Some(entry) => EntryOutcome(entry, rd)
  }

  /** The messages so far, after one more line. Once an exception is raised, nothing changes it. */
  function Step(acc: Result<seq<Message>>, o: Outcome): (r: Result<seq<Message>>)
    ensures acc.Failure? ==> r == acc
  {
    if acc.Failure? then acc
    else
      match o
      case Skip => acc
      case Emit(m) => Success(acc.value + [m])
      case Raise(e) => Failure(e)
  }

  /** `parse_session_file` on a transcript with these lines. */
  function SessionMessages(lines: seq<string>, rd: Reader): Result<seq<Message>> {
    if lines == [] then Success([])
    else Step(SessionMessages(lines[..|lines| - 1], rd), LineOutcome(lines[|lines| - 1], rd))
  }

  /** Reading one more line is one more step. */
  lemma SessionMessagesSnoc(lines: seq<string>, line: string, rd: Reader)
    ensures SessionMessages(lines + [line], rd) == Step(SessionMessages(lines, rd), LineOutcome(line, rd))
  {
    assert (lines + [line])[..|lines|] == lines;
  }

  /** An exception raised on some line is the result of the whole file. */
  lemma {:induction false} FailureSticks(lines: seq<string>, n: nat, rd: Reader)
    requires n <= |lines| && SessionMessages(lines[..n], rd).Failure?
    ensures SessionMessages(lines, rd) == SessionMessages(lines[..n], rd)
    decreases |lines| - n
  {
    if n == |lines| {
      assert lines[..n] == lines;
    } else {
      assert lines[..n + 1][..n] == lines[..n];
      FailureSticks(lines, n + 1, rd);
    }
  }

  /** A skipped line, wherever it stands, changes nothing: the lines around it are read as if it were absent. */
  lemma {:induction false} SkippedLineInvisible(a: seq<string>, line: string, b: seq<string>, rd: Reader)
    requires LineOutcome(line, rd) == Skip
    ensures SessionMessages(a + [line] + b, rd) == SessionMessages(a + b, rd)
    decreases |b|
  {
    if b == [] {
      assert a + [line] + b == a + [line] && a + b == a;
      SessionMessagesSnoc(a, line, rd);
    } else {
      var init, last := b[..|b| - 1], b[|b| - 1];
      SkippedLineInvisible(a, line, init, rd);
      AppendFrontAndLast(a + [line], b);
      AppendFrontAndLast(a, b);
      SessionMessagesSnoc(a + [line] + init, last, rd);
      SessionMessagesSnoc(a + init, last, rd);
    }
  }

  /** Every message read has the role "user" or "assistant" and a non-empty text. */
  lemma {:induction false} MessagesGated(lines: seq<string>, rd: Reader, k: nat)
    requires SessionMessages(lines, rd).Success? && k < |SessionMessages(lines, rd).value|
    ensures var m := SessionMessages(lines, rd).value[k];
            (m.role == "user" || m.role == "assistant") && m.content != []
  {
    var init := lines[..|lines| - 1];
    var prev := SessionMessages(init, rd);
    if k < |prev.value| {
      MessagesGated(init, rd, k);
    }
  }

  /** `parse_session_file`'s handling of one decoded line. */
  method ParseEntry(entry: Json, rd: Reader) returns (o: Outcome)
    ensures o == EntryOutcome(entry, rd)
  {
    if !entry.Obj? {
      return Raise(AttributeError("get"));
    }
    var msg := Get(entry.members, "message").GetOr(Null);
    if !Truthy(msg) {
      msg := Get(entry.members, "data").GetOr(Obj([]));
    }
    if !msg.Obj? {
      return Raise(AttributeError("get"));
    }
    var role := Get(msg.members, "role").GetOr(Str(""));
    var text := AssembleText(Get(msg.members, "content").GetOr(Arr([])));
    if text.None? {
      return Skip;
    }
    var dt := Timestamp(entry.members, rd);
    if text.value != [] && (role == Str("user") || role == Str("assistant")) {
      return Emit(Message(role.s, text.value, dt));
    }
    return Skip;
  }

  /** `parse_session_file`: the messages of a transcript, line by line. */
  method ParseSessionFile(lines: seq<string>, rd: Reader) returns (r: Result<seq<Message>>)
    ensures r == SessionMessages(lines, rd)
  {
    var messages: seq<Message> := [];
    for i := 0 to |lines|
      invariant SessionMessages(lines[..i], rd) == Success(messages)
    {
      var line := lines[i];
      PrefixSnoc(lines, i);
      SessionMessagesSnoc(lines[..i], line, rd);
      if Strip(line) == [] {
        continue;
      }
      var entry := rd.decode(line);
      if entry.None? {
        continue;
      }
      var o := ParseEntry(entry.value, rd);
      match o {
        case Skip =>
        case Emit(m) => messages := messages + [m];
        case Raise(e) =>
          FailureSticks(lines, i + 1, rd);
          return Failure(e);
      }
    }
    assert lines[..|lines|] == lines;
    r := Success(messages);
  }

  // ---------------------------------------------------------------------------
  // Significant messages
  // ---------------------------------------------------------------------------

  /** A memory entry, as `extract_memory_entries` builds it. */
  datatype MemoryEntry = MemoryEntry(content: string, category: string, role: string)

  /** The markers of heartbeat and system chatter. */
  const NoiseMarkers: seq<string> := ["HEARTBEAT_OK", "Read HEARTBEAT.md", "system:", "{"]

  /** The shortest message worth remembering. */
  const MinimumLength: nat := 50

  /** A message is kept when it holds no noise marker and has at least fifty characters; its role is not looked at. */
  predicate Significant(content: string) {
    (forall k :: 0 <= k < |NoiseMarkers| ==> !Contains(content, NoiseMarkers[k])) && |content| >= MinimumLength
  }

  /** The entry a kept message becomes. */
  function EntryOf(m: Message): MemoryEntry {
    MemoryEntry(m.content, "conversation", m.role)
  }

  /** `extract_memory_entries` */
  function ExtractMemoryEntries(messages: seq<Message>): (r: seq<MemoryEntry>)
    ensures |r| <= |messages|
  {
    if messages == [] then []
    else
      var last := messages[|messages| - 1];
      ExtractMemoryEntries(messages[..|messages| - 1]) + (if Significant(last.content) then [EntryOf(last)] else [])
  }

  /** Every message as an entry, significant or not. */
  function AllEntries(messages: seq<Message>): (r: seq<MemoryEntry>)
    ensures |r| == |messages| && forall k :: 0 <= k < |r| ==> r[k] == EntryOf(messages[k])
  {
    seq(|messages|, k requires 0 <= k < |messages| => EntryOf(messages[k]))
  }

  /**
   * The entries are an order-preserving subsequence of the messages, each
   * with its content and role copied and the category "conversation".
   */
  lemma {:induction false} EntriesInOrder(messages: seq<Message>)
    ensures IsSubsequence(ExtractMemoryEntries(messages), AllEntries(messages))
  {
    if messages != [] {
      var init := messages[..|messages| - 1];
      var last := messages[|messages| - 1];
      EntriesInOrder(init);
      SubsequenceSnoc(ExtractMemoryEntries(init), AllEntries(init), EntryOf(last), Significant(last.content));
      assert AllEntries(messages) == AllEntries(init) + [EntryOf(last)];
    }
  }

  /** An entry is kept exactly when some message is significant and becomes it. */
  lemma {:induction false} EntriesExact(messages: seq<Message>, e: MemoryEntry)
    ensures e in ExtractMemoryEntries(messages)
            <==> exists k :: 0 <= k < |messages| && Significant(messages[k].content) && e == EntryOf(messages[k])
  {
    if messages != [] {
      var init := messages[..|messages| - 1];
      var last := messages[|messages| - 1];
      EntriesExact(init, e);
      if exists k :: 0 <= k < |messages| && Significant(messages[k].content) && e == EntryOf(messages[k]) {
        var k :| 0 <= k < |messages| && Significant(messages[k].content) && e == EntryOf(messages[k]);
        if k < |init| {
          assert init[k] == messages[k];
        }
      }
      if e in ExtractMemoryEntries(init) {
        var k :| 0 <= k < |init| && Significant(init[k].content) && e == EntryOf(init[k]);
        assert messages[k] == init[k];
      }
    }
  }

  // ---------------------------------------------------------------------------
  // The daily block
  // ---------------------------------------------------------------------------

  /** The most previews one block holds, and the longest preview text. */
  const MaxPreviews: nat := 20
  const PreviewLength: nat := 500

  /** The fixed text of a block. */
  const IngestHeading: string := "\n## "
  const IngestTitle: string := " - SESSION INGEST\n"
  const IngestedFrom: string := "*Ingested from "
  const MessagesNote: string := " messages*\n\n"
  const Bold: string := "**"
  const BoldColon: string := "**: "
  const BlankLine: string := "\n\n"
  const Rule: string := "---\n"
  const Ellipsis: string := "..."

  /** The first 500 characters of an entry, marked with "..." when it was longer. */
  function Preview(content: string): (p: string)
    ensures |content| <= PreviewLength ==> p == content
    ensures |content| > PreviewLength ==> p == content[..PreviewLength] + Ellipsis
  {
    if |content| > PreviewLength then Take(content, PreviewLength) + Ellipsis else Take(content, PreviewLength)
  }

  /** The block line of one entry: the role in capitals, then the preview. */
  function PreviewLine(e: MemoryEntry): string {
    Bold + Upper(e.role) + BoldColon + Preview(e.content) + BlankLine
  }

  /** The lines of `entries`, in order. */
  function PreviewLines(entries: seq<MemoryEntry>): string {
    if entries == [] then "" else PreviewLines(entries[..|entries| - 1]) + PreviewLine(entries[|entries| - 1])
  }

  /** The heading of a session's block: its time, then the number of entries it came from. */
  function BlockHead(session: Instant, count: nat): string
    requires ValidInstant(session)
  {
    IngestHeading + FormatHourMinute(session) + IngestTitle + IngestedFrom + NatToString(count) + MessagesNote
  }

  /** The block `save_to_daily_memory` appends: a heading, the first twenty previews and a rule. */
  function IngestBlock(entries: seq<MemoryEntry>, session: Instant): string
    requires ValidInstant(session)
  {
    BlockHead(session, |entries|) + PreviewLines(Take(entries, MaxPreviews)) + Rule
  }

  /** The lines of a prefix are a prefix of the lines. */
  lemma {:induction false} PreviewLinesPrefix(entries: seq<MemoryEntry>, n: nat)
    requires n <= |entries|
    ensures StartsWith(PreviewLines(entries), PreviewLines(entries[..n]))
    decreases |entries| - n
  {
    if n == |entries| {
      assert entries[..n] == entries;
    } else {
      PreviewLinesPrefix(entries, n + 1);
      assert entries[..n + 1][..n] == entries[..n];
      var a := PreviewLines(entries[..n]);
      var b := PreviewLines(entries[..n + 1]);
      assert b == a + PreviewLine(entries[n]);
      assert b[..|a|] == a;
    }
  }

  /** Every entry has its preview line among the lines. */
  lemma {:induction false} LinesListEach(entries: seq<MemoryEntry>, k: nat)
    requires k < |entries|
    ensures Contains(PreviewLines(entries), PreviewLine(entries[k]))
  {
    var init := entries[..|entries| - 1];
    var line := PreviewLine(entries[|entries| - 1]);
    assert PreviewLines(entries) == PreviewLines(init) + line;
    if k == |entries| - 1 {
      ContainsAppended(PreviewLines(init), line);
    } else {
      LinesListEach(init, k);
      assert init[k] == entries[k];
      ContainsExtend(PreviewLines(init), line, PreviewLine(entries[k]));
    }
  }

  /** Each of the first twenty entries has its preview line in the block. */
  lemma BlockListsFirstTwenty(entries: seq<MemoryEntry>, session: Instant, k: nat)
    requires ValidInstant(session) && k < |entries| && k < MaxPreviews
    ensures Contains(IngestBlock(entries, session), PreviewLine(entries[k]))
  {
    var top := Take(entries, MaxPreviews);
    assert top[k] == entries[k];
    LinesListEach(top, k);
    ContainsInMiddle(BlockHead(session, |entries|), PreviewLines(top), Rule, PreviewLine(entries[k]));
  }

  /** The file a save appends to, by stem: `MEMORY_DIR / f"{today}.md"`. */
  function DailyStem(session: Instant): string
    requires ValidInstant(session)
  {
    FormatDate(session.date)
  }

  /**
   * `save_to_daily_memory`: nothing happens for no entries; without a session
   * date the first entry's `timestamp` is looked up and is missing; otherwise
   * the block is appended to the session day's file, created if need be, and
   * the number of entries (not of previews) is returned.
   */
  function SaveSpec(files: map<string, string>, entries: seq<MemoryEntry>, session: Option<Instant>)
    : (out: (Result<nat>, map<string, string>))
    requires session.Some? ==> ValidInstant(session.value)
    ensures entries == [] ==> out == (Success(0), files)
    ensures entries != [] && session.None? ==> out == (Failure(KeyError("timestamp")), files)
    ensures entries != [] && session.Some? ==>
              var stem := DailyStem(session.value);
              out.0 == Success(|entries|) && stem in out.1 && out.1 - {stem} == files - {stem}
              && StartsWith(out.1[stem], if stem in files then files[stem] else "")
              && out.1[stem] == (if stem in files then files[stem] else "") + IngestBlock(entries, session.value)
  {
    if entries == [] then (Success(0), files)
    else if session.None? then (Failure(KeyError("timestamp")), files)
    else
      var stem := DailyStem(session.value);
      var before := if stem in files then files[stem] else "";
      (Success(|entries|), files[stem := before + IngestBlock(entries, session.value)])
  }

  /** `save_to_daily_memory`, writing the previews one by one. */
  method SaveToDailyMemory(files: map<string, string>, entries: seq<MemoryEntry>, session: Option<Instant>)
    returns (r: Result<nat>, after: map<string, string>)
    requires session.Some? ==> ValidInstant(session.value)
    ensures (r, after) == SaveSpec(files, entries, session)
  {
    if entries == [] {
      return Success(0), files;
    }
    if session.None? {
      return Failure(KeyError("timestamp")), files;
    }
    var today := DailyStem(session.value);
    var written := BlockHead(session.value, |entries|);
    var top := Take(entries, MaxPreviews);
    var lines := "";
    for i := 0 to |top|
      invariant lines == PreviewLines(top[..i])
    {
      assert top[..i + 1][..i] == top[..i];
      lines := lines + PreviewLine(top[i]);
    }
    assert top[..|top|] == top;
    written := written + lines + Rule;
    var before := if today in files then files[today] else "";
    after := files[today := before + written];
    r := Success(|entries|);
  }

  /** Two entry lists of one length that agree on their first twenty entries give the same block. */
  lemma BlockIgnoresRest(a: seq<MemoryEntry>, b: seq<MemoryEntry>, session: Instant)
    requires ValidInstant(session) && |a| == |b|
    requires forall k :: 0 <= k < |a| && k < MaxPreviews ==> a[k] == b[k]
    ensures IngestBlock(a, session) == IngestBlock(b, session)
  {
    assert Take(a, MaxPreviews) == Take(b, MaxPreviews);
  }

  /**
   * A session that yields more than twenty entries reports all of them, but
   * the file it writes is the one any other session with the same first
   * twenty entries and the same count would write: the rest are never saved.
   */
  lemma SavedCountExceedsWritten(files: map<string, string>, entries: seq<MemoryEntry>,
                                 other: seq<MemoryEntry>, session: Instant)
    requires ValidInstant(session) && |entries| > MaxPreviews
    requires |other| == |entries| - MaxPreviews
    ensures SaveSpec(files, entries, Some(session)).0 == Success(|entries|)
    ensures SaveSpec(files, entries, Some(session)).1
            == SaveSpec(files, entries[..MaxPreviews] + other, Some(session)).1
  {
    BlockIgnoresRest(entries, entries[..MaxPreviews] + other, session);
  }

  // ---------------------------------------------------------------------------
  // A run over the transcripts
  // ---------------------------------------------------------------------------

  /** A transcript file: its path, its modification time in seconds and as an instant, and its lines. */
  datatype SessionFile = SessionFile(path: string, mtime: real, fileTime: Time, lines: seq<string>)

  /** What reading every transcript shares: the decoder, the timestamp parser and the current time. */
  datatype Parsing = Parsing(decode: string -> Option<Json>, parseTime: string -> Option<Time>, now: Time)

  function ReaderFor(p: Parsing, f: SessionFile): Reader {
    Reader(p.decode, p.parseTime, f.fileTime, p.now)
  }

  /** The files a source filter selects: all of them when it is absent or empty, else those whose path contains it. */
  function Selected(files: seq<SessionFile>, filter: Option<string>): (r: seq<SessionFile>)
    ensures |r| <= |files|
  {
    if files == [] then []
    else
      var last := files[|files| - 1];
      Selected(files[..|files| - 1], filter)
      + (if filter.None? || filter.value == [] || Contains(last.path, filter.value) then [last] else [])
  }

  /** A file is processed exactly when it is listed and, given a non-empty filter, its path contains the filter. */
  lemma {:induction false} SelectedExact(files: seq<SessionFile>, filter: Option<string>, f: SessionFile)
    ensures f in Selected(files, filter)
            <==> f in files && (filter.None? || filter.value == [] || Contains(f.path, filter.value))
  {
    if files != [] {
      var init := files[..|files| - 1];
      SelectedExact(init, filter, f);
      assert files == init + [files[|files| - 1]];
    }
  }

  /** The cutoff `since_hours` sets, in seconds; none when it is absent or zero. */
  function Cutoff(sinceHours: Option<int>, nowSeconds: real): (c: Option<real>)
    ensures c.Some? <==> sinceHours.Some? && sinceHours.value != 0
    ensures c.Some? ==> c.value == nowSeconds - sinceHours.value as real * 3600.0
  {
    if sinceHours.None? || sinceHours.value == 0 then None else Some(nowSeconds - sinceHours.value as real * 3600.0)
  }

  /** A file modified before the cutoff is skipped. */
  predicate Stale(f: SessionFile, cutoff: Option<real>) {
    cutoff.Some? && f.mtime < cutoff.value
  }

  /** One transcript: read it, keep its significant messages, and save them under its first message's time. */
  function IngestFile(memory: map<string, string>, f: SessionFile, p: Parsing): (out: (Result<nat>, map<string, string>))
  {
    var ms := SessionMessages(f.lines, ReaderFor(p, f));
    if ms.Failure? then (Failure(ms.error), memory)
    else
      var entries := ExtractMemoryEntries(ms.value);
      if entries == [] then (Success(0), memory)
      else
        SaveSpec(memory, entries, Some(ms.value[0].timestamp))
  }

  /** A file that is ingested without an exception reports the number of its significant messages. */
  lemma IngestFileCount(memory: map<string, string>, f: SessionFile, p: Parsing)
    ensures IngestFile(memory, f, p).0.Success? ==>
              var ms := SessionMessages(f.lines, ReaderFor(p, f));
              ms.Success? && IngestFile(memory, f, p).0.value == |ExtractMemoryEntries(ms.value)|
  {
  }

  /**
   * The loop of `ingest_sessions` over `queue`: stale files are skipped, the
   * saved counts add up, and an exception ends the run with the files written so far.
   */
  function IngestAll(memory: map<string, string>, queue: seq<SessionFile>, cutoff: Option<real>, p: Parsing)
    : (out: (Result<nat>, map<string, string>))
  {
    if queue == [] then (Success(0), memory)
    else Advance(IngestAll(memory, queue[..|queue| - 1], cutoff, p), queue[|queue| - 1], cutoff, p)
  }

  /** The run so far, after one more file: skipped when stale or after an exception, otherwise ingested. */
  function Advance(prev: (Result<nat>, map<string, string>), f: SessionFile, cutoff: Option<real>, p: Parsing)
    : (out: (Result<nat>, map<string, string>))
    ensures prev.0.Failure? || Stale(f, cutoff) ==> out == prev
  {
    if prev.0.Failure? || Stale(f, cutoff) then prev else Combine(prev.0.value, IngestFile(prev.1, f, p))
  }

  /** A file's outcome added to the total so far: an exception replaces the total, a count adds to it. */
  function Combine(total: nat, next: (Result<nat>, map<string, string>)): (out: (Result<nat>, map<string, string>))
    ensures out.1 == next.1
    ensures next.0.Failure? ==> out.0 == next.0
    ensures next.0.Success? ==> out.0 == Success(total + next.0.value)
  {
    (if next.0.Failure? then next.0 else Success(total + next.0.value), next.1)
  }

  /** The number of significant messages in the files of `queue` that are not stale. */
  function EntriesIn(queue: seq<SessionFile>, cutoff: Option<real>, p: Parsing): nat {
    if queue == [] then 0
    else
      var f := queue[|queue| - 1];
      var ms := SessionMessages(f.lines, ReaderFor(p, f));
      EntriesIn(queue[..|queue| - 1], cutoff, p)
      + (if Stale(f, cutoff) || ms.Failure? then 0 else |ExtractMemoryEntries(ms.value)|)
  }

  /** A run that completes returns the number of significant messages in the files it read, whatever it wrote. */
  lemma {:induction false} TotalIsEntryCount(memory: map<string, string>, queue: seq<SessionFile>, cutoff: Option<real>, p: Parsing)
    ensures IngestAll(memory, queue, cutoff, p).0.Success? ==>
              IngestAll(memory, queue, cutoff, p).0.value == EntriesIn(queue, cutoff, p)
  {
    if queue != [] {
      var prev := IngestAll(memory, queue[..|queue| - 1], cutoff, p);
      TotalIsEntryCount(memory, queue[..|queue| - 1], cutoff, p);
      IngestFileCount(prev.1, queue[|queue| - 1], p);
    }
  }

  /** A stale file is never read: the run is the same without it. */
  lemma StaleFileIgnored(memory: map<string, string>, queue: seq<SessionFile>, f: SessionFile, cutoff: Option<real>, p: Parsing)
    requires Stale(f, cutoff)
    ensures IngestAll(memory, queue + [f], cutoff, p) == IngestAll(memory, queue, cutoff, p)
  {
    assert (queue + [f])[..|queue|] == queue;
  }

  /** An exception on one file is the result of the whole run. */
  lemma {:induction false} IngestFailureSticks(memory: map<string, string>, queue: seq<SessionFile>, n: nat, cutoff: Option<real>, p: Parsing)
    requires n <= |queue| && IngestAll(memory, queue[..n], cutoff, p).0.Failure?
    ensures IngestAll(memory, queue, cutoff, p) == IngestAll(memory, queue[..n], cutoff, p)
    decreases |queue| - n
  {
    if n == |queue| {
      assert queue[..n] == queue;
    } else {
      assert queue[..n + 1][..n] == queue[..n];
      IngestFailureSticks(memory, queue, n + 1, cutoff, p);
    }
  }

  /** The transcripts `ingest_sessions` visits, newest first. */
  function Queue(files: seq<SessionFile>, filter: Option<string>): (q: seq<SessionFile>)
    ensures multiset(q) == multiset(Selected(files, filter))
    ensures SortedDesc(q, (f: SessionFile) => f.mtime)
  {
    SortDesc(Selected(files, filter), (f: SessionFile) => f.mtime)
  }

  /** The queue holds exactly the listed files that pass the filter. */
  lemma QueueMembers(files: seq<SessionFile>, filter: Option<string>, f: SessionFile)
    ensures f in Queue(files, filter)
            <==> f in files && (filter.None? || filter.value == [] || Contains(f.path, filter.value))
  {
    var q := Queue(files, filter);
    assert f in q <==> f in multiset(q);
    assert f in Selected(files, filter) <==> f in multiset(Selected(files, filter));
    SelectedExact(files, filter, f);
  }

  /**
   * `ingest_sessions`: the selected transcripts, newest first, each skipped
   * when modified before the cutoff, otherwise read and saved.
   */
  method IngestSessions(memory: map<string, string>, files: seq<SessionFile>, sinceHours: Option<int>,
                        filter: Option<string>, nowSeconds: real, p: Parsing)
    returns (r: Result<nat>, after: map<string, string>)
    ensures (r, after) == IngestAll(memory, Queue(files, filter), Cutoff(sinceHours, nowSeconds), p)
  {
    var sessionFiles := files;
    if filter.Some? && filter.value != [] {
      sessionFiles := Selected(files, filter);
    }
    assert sessionFiles == Selected(files, filter) by {
      if filter.None? || filter.value == [] {
        SelectedAll(files, filter);
      }
    }
    var cutoff := Cutoff(sinceHours, nowSeconds);
    var queue := SortDesc(sessionFiles, (f: SessionFile) => f.mtime);
    r, after := IngestQueue(memory, queue, cutoff, p);
  }

  /** The body of the loop of `ingest_sessions` for a file that is not skipped. */
  method IngestOne(memory: map<string, string>, f: SessionFile, p: Parsing)
    returns (r: Result<nat>, after: map<string, string>)
    ensures (r, after) == IngestFile(memory, f, p)
  {
    var messages := ParseSessionFile(f.lines, ReaderFor(p, f));
    if messages.Failure? {
      return Failure(messages.error), memory;
    }
    var entries := ExtractMemoryEntries(messages.value);
    if entries == [] {
      return Success(0), memory;
    }
    r, after := SaveToDailyMemory(memory, entries, Some(messages.value[0].timestamp));
  }

  /** One more file of the queue: skipped when stale or after an exception, otherwise ingested. */
  lemma IngestSnoc(memory: map<string, string>, queue: seq<SessionFile>, i: nat, cutoff: Option<real>, p: Parsing)
    requires i < |queue|
    ensures IngestAll(memory, queue[..i + 1], cutoff, p) == Advance(IngestAll(memory, queue[..i], cutoff, p), queue[i], cutoff, p)
  {
    assert queue[..i + 1][..i] == queue[..i];
  }

  /** The loop of `ingest_sessions` over the sorted transcripts. */
  method IngestQueue(memory: map<string, string>, queue: seq<SessionFile>, cutoff: Option<real>, p: Parsing)
    returns (r: Result<nat>, after: map<string, string>)
    ensures (r, after) == IngestAll(memory, queue, cutoff, p)
  {
    var total := 0;
    after := memory;
    for i := 0 to |queue|
      invariant IngestAll(memory, queue[..i], cutoff, p).0 == Success(total)
      invariant IngestAll(memory, queue[..i], cutoff, p).1 == after
    {
      IngestSnoc(memory, queue, i, cutoff, p);
      var saved, written := VisitSession(total, after, queue[i], cutoff, p);
      if saved.Failure? {
        IngestFailureSticks(memory, queue, i + 1, cutoff, p);
        return saved, written;
      }
      total, after := saved.value, written;
    }
    assert queue[..|queue|] == queue;
    r := Success(total);
  }

  /** One pass of the loop of `ingest_sessions`: a stale file is skipped, any other is ingested. */
  method VisitSession(total: nat, memory: map<string, string>, f: SessionFile, cutoff: Option<real>, p: Parsing)
    returns (r: Result<nat>, after: map<string, string>)
    ensures (r, after) == Advance((Success(total), memory), f, cutoff, p)
  {
    if cutoff.Some? && f.mtime < cutoff.value {
      return Success(total), memory;
    }
    var saved, written := IngestOne(memory, f, p);
    r, after := Combine(total, (saved, written)).0, written;
  }

  /** Without a non-empty filter every file is selected. */
  lemma {:induction false} SelectedAll(files: seq<SessionFile>, filter: Option<string>)
    requires filter.None? || filter.value == []
    ensures Selected(files, filter) == files
  {
    if files != [] {
      SelectedAll(files[..|files| - 1], filter);
      assert files == files[..|files| - 1] + [files[|files| - 1]];
    }
  }
}
