/**
 * Memory triggers: phrases such as "remember this:" after which the rest of
 * the line is saved to daily memory. Each trigger is the regular expression
 * `<phrase>[:\s]+(.+)`, searched case-insensitively; the matcher below is
 * written out by hand for exactly that shape.
 */
module Triggers {
  import opened Wrappers
  import opened Seqs
  import opened Text

  /** One entry of `MEMORY_TRIGGERS`: the phrase of its pattern and the importance it assigns. */
  datatype Rule = Rule(phrase: string, importance: string)

  /** The pattern string of a rule, as the trigger list spells it. */
  function Pattern(r: Rule): string {
    r.phrase + "[:\\s]+(.+)"
  }

  const RememberThis: Rule := Rule("remember this", "normal")
  const DontForget: Rule := Rule("don't forget", "high")
  const MakeSureTo: Rule := Rule("make sure to", "action")
  const WeDecided: Rule := Rule("we decided", "decision")
  const ThisIsImportant: Rule := Rule("this is important", "high")
  const ForFutureReference: Rule := Rule("for future reference", "long-term")

  /** `TRIGGER_PATTERNS`, in order. */
  const Rules: seq<Rule> := [RememberThis, DontForget, MakeSureTo, WeDecided, ThisIsImportant, ForFutureReference]

  /** Characters of the class `[:\s]`. */
  predicate IsSeparator(c: char) {
    c == ':' || IsSpace(c)
  }

  /** The phrase occurs at `p`, ignoring ASCII case (every phrase is lowercase). */
  predicate PhraseAt(s: string, p: nat, phrase: string) {
    p + |phrase| <= |s| && forall i :: 0 <= i < |phrase| ==> LowerChar(s[p + i]) == phrase[i]
  }

  /** Length of the run of separator characters that starts at `q`. */
  function SeparatorRun(s: string, q: nat): (n: nat)
    requires q <= |s|
    ensures q + n <= |s|
    ensures forall k :: q <= k < q + n ==> IsSeparator(s[k])
    ensures q + n == |s| || !IsSeparator(s[q + n])
    decreases |s| - q
  {
    if q < |s| && IsSeparator(s[q]) then 1 + SeparatorRun(s, q + 1) else 0
  }

  /**
   * Where the group `(.+)` starts when the separators `[:\s]+` may take up to
   * `n` characters from `q`: the greedy run gives back characters until the
   * next one can start the group, which needs a character other than a newline.
   */
  function GroupStart(s: string, q: nat, n: nat): (g: Option<nat>)
    requires q + n <= |s|
    ensures g.Some? ==> q < g.value <= q + n && g.value < |s| && s[g.value] != '\n'
    ensures g.Some? ==> forall k :: g.value < k <= q + n ==> k == |s| || s[k] == '\n'
    ensures g.None? ==> forall k :: q < k <= q + n ==> k == |s| || s[k] == '\n'
  {
    if n == 0 then None
    else if q + n < |s| && s[q + n] != '\n' then Some(q + n)
    else GroupStart(s, q, n - 1)
  }

  /** The end of the line that contains position `i`: the next newline, or the end of `s`. */
  function LineEnd(s: string, i: nat): (e: nat)
    requires i <= |s|
    ensures i <= e <= |s| && (e == |s| || s[e] == '\n')
    ensures forall k :: i <= k < e ==> s[k] != '\n'
    decreases |s| - i
  {
    if i == |s| || s[i] == '\n' then i else LineEnd(s, i + 1)
  }

  /** The group the pattern captures when the match starts at `p`, if it matches there. */
  function MatchAt(s: string, p: nat, phrase: string): (r: Option<string>)
    ensures r.Some? ==> PhraseAt(s, p, phrase)
    ensures r.Some? ==> r.value != [] && '\n' !in r.value
  {
    if !PhraseAt(s, p, phrase) then None
    else
      var q := p + |phrase|;
      match GroupStart(s, q, SeparatorRun(s, q))
      case None => None
      case Some(g) => Some(s[g..LineEnd(s, g)])
  }

  /** `re.search`: the leftmost position at or after `p` where the pattern matches, and its group. */
  function SearchFrom(s: string, p: nat, phrase: string): (r: Option<(nat, string)>)
    requires p <= |s|
    ensures r.Some? ==> p <= r.value.0 <= |s| && MatchAt(s, r.value.0, phrase) == Some(r.value.1)
    decreases |s| - p
  {
    match MatchAt(s, p, phrase)
    case Some(g) => Some((p, g))
    case None => if p == |s| then None else SearchFrom(s, p + 1, phrase)
  }

  /** The search finds the leftmost match: the pattern matches at no earlier position, nor anywhere when nothing is found. */
  lemma {:induction false} SearchFromLeftmost(s: string, p: nat, phrase: string, k: nat)
    requires p <= k <= |s|
    requires SearchFrom(s, p, phrase).Some? ==> k < SearchFrom(s, p, phrase).value.0
    ensures MatchAt(s, k, phrase).None?
    decreases |s| - p
  {
    SearchFromStep(s, p, phrase);
    if k > p {
      SearchFromLeftmost(s, p + 1, phrase, k);
    }
  }

  /** One step of the search: a match at `p` is reported, otherwise the search moves on. */
  lemma SearchFromStep(s: string, p: nat, phrase: string)
    requires p <= |s|
    ensures MatchAt(s, p, phrase).Some? ==> SearchFrom(s, p, phrase) == Some((p, MatchAt(s, p, phrase).value))
    ensures MatchAt(s, p, phrase).None? && p < |s| ==> SearchFrom(s, p, phrase) == SearchFrom(s, p + 1, phrase)
  {
  }

  /** What `detect_memory_trigger` returns when a trigger fires. */
  datatype Trigger = Trigger(content: string, importance: string, detectedTrigger: string)

  /** The trigger a rule fires on `text`: its importance and pattern, and the captured text stripped. */
  function Fires(rule: Rule, text: string): (r: Option<Trigger>)
    ensures r.Some? <==> SearchFrom(text, 0, rule.phrase).Some?
    ensures r.Some? ==> r.value.importance == rule.importance && r.value.detectedTrigger == Pattern(rule)
    ensures r.Some? ==> r.value.content == Strip(SearchFrom(text, 0, rule.phrase).value.1)
  {
    match SearchFrom(text, 0, rule.phrase)
    case Some(m) => Some(Trigger(Strip(m.1), rule.importance, Pattern(rule)))
    case None => None
  }

  /** The captured text comes from the leftmost position where the pattern matches. */
  lemma FiresLeftmost(rule: Rule, text: string) returns (p: nat)
    requires Fires(rule, text).Some?
    ensures p <= |text| && MatchAt(text, p, rule.phrase).Some?
    ensures Fires(rule, text).value.content == Strip(MatchAt(text, p, rule.phrase).value)
    ensures forall k :: 0 <= k < p ==> MatchAt(text, k, rule.phrase).None?
  {
    p := SearchFrom(text, 0, rule.phrase).value.0;
    forall k | 0 <= k < p
      ensures MatchAt(text, k, rule.phrase).None?
    {
      SearchFromLeftmost(text, 0, rule.phrase, k);
    }
  }

  /** The first outcome that holds a trigger. */
  function FirstSome(outcomes: seq<Option<Trigger>>): (r: Option<Trigger>)
    ensures r.None? <==> forall i :: 0 <= i < |outcomes| ==> outcomes[i].None?
  {
    if outcomes == [] then None
    else if outcomes[0].Some? then outcomes[0]
    else
      assert forall i :: 0 < i < |outcomes| ==> outcomes[i] == outcomes[1..][i - 1];
      FirstSome(outcomes[1..])
  }

  /** A trigger found is the outcome at some position before which every outcome is empty. */
  lemma {:induction false} FirstSomeIsFirst(outcomes: seq<Option<Trigger>>)
    requires FirstSome(outcomes).Some?
    ensures exists i :: 0 <= i < |outcomes| && FirstSome(outcomes) == outcomes[i]
                        && forall j :: 0 <= j < i ==> outcomes[j].None?
  {
    if outcomes[0].None? {
      var rest := outcomes[1..];
      FirstSomeIsFirst(rest);
      var i :| 0 <= i < |rest| && FirstSome(rest) == rest[i] && forall j :: 0 <= j < i ==> rest[j].None?;
      assert outcomes[i + 1] == rest[i];
      assert forall j :: 0 < j < i + 1 ==> outcomes[j] == rest[j - 1];
    }
  }

  /** What each rule gives on `text`, in list order. */
  function Outcomes(rules: seq<Rule>, text: string): (r: seq<Option<Trigger>>)
    ensures |r| == |rules| && forall i :: 0 <= i < |rules| ==> r[i] == Fires(rules[i], text)
  {
    seq(|rules|, i requires 0 <= i < |rules| => Fires(rules[i], text))
  }

  /** The first rule, in list order, that fires on `text`. */
  function FirstTrigger(rules: seq<Rule>, text: string): (r: Option<Trigger>)
    ensures r.None? <==> forall i :: 0 <= i < |rules| ==> Fires(rules[i], text).None?
  {
    FirstSome(Outcomes(rules, text))
  }

  /** A trigger is what the first rule that fires gives, and no earlier rule fires. */
  lemma FirstTriggerIsFirst(rules: seq<Rule>, text: string)
    requires FirstTrigger(rules, text).Some?
    ensures exists i :: 0 <= i < |rules| && FirstTrigger(rules, text) == Fires(rules[i], text)
                        && forall j :: 0 <= j < i ==> Fires(rules[j], text).None?
  {
    var outcomes := Outcomes(rules, text);
    FirstSomeIsFirst(outcomes);
    var i :| 0 <= i < |outcomes| && FirstSome(outcomes) == outcomes[i]
             && forall j :: 0 <= j < i ==> outcomes[j].None?;
    assert FirstTrigger(rules, text) == Fires(rules[i], text);
  }

  /** When the first rule fires, its trigger is the one reported. */
  lemma FirstRuleWins(rules: seq<Rule>, text: string)
    requires rules != [] && Fires(rules[0], text).Some?
    ensures FirstTrigger(rules, text) == Fires(rules[0], text)
  {
    assert Outcomes(rules, text)[0] == Fires(rules[0], text);
  }

  /**
   * `detect_memory_trigger` as intended: the first trigger whose pattern is
   * found, with the captured text stripped.
   */
  function DetectTrigger(text: string): (r: Option<Trigger>)
    ensures r.None? <==> forall i :: 0 <= i < |Rules| ==> SearchFrom(text, 0, Rules[i].phrase).None?
    ensures r.Some? ==> exists i :: 0 <= i < |Rules| && r == Fires(Rules[i], text)
                                    && forall j :: 0 <= j < i ==> Fires(Rules[j], text).None?
  {
    assert forall i :: 0 <= i < |Rules| ==> (Fires(Rules[i], text).None? <==> SearchFrom(text, 0, Rules[i].phrase).None?);
    if FirstTrigger(Rules, text).Some? then
      FirstTriggerIsFirst(Rules, text);
      FirstTrigger(Rules, text)
    else
      None
  }

  /**
   * `detect_memory_trigger` as shipped: `re` is imported only inside
   * `discover_entities`, so the first `re.search` raises `NameError`.
   */
  function DetectTriggerAsShipped(text: string): (r: Result<Option<Trigger>>)
    ensures r.Failure? && r.error.NameError?
  {
    Failure(NameError("re"))
  }

  /** The separator run is exactly `m` long when `m` separators are followed by another character. */
  lemma {:induction false} SeparatorRunExact(text: string, q: nat, m: nat)
    requires q + m < |text| && !IsSeparator(text[q + m])
    requires forall k :: q <= k < q + m ==> IsSeparator(text[k])
    ensures SeparatorRun(text, q) == m
    decreases m
  {
    if m > 0 {
      SeparatorRunExact(text, q + 1, m - 1);
    }
  }

  /** Line ends are found at the same place in a suffix of a string. */
  lemma {:induction false} LineEndShift(text: string, g: nat, rest: string, i: nat)
    requires g <= |text| && text[g..] == rest && i <= |rest|
    ensures LineEnd(text, g + i) == g + LineEnd(rest, i)
    decreases |rest| - i
  {
    if i < |rest| && rest[i] != '\n' {
      assert text[g + i] == rest[i];
      LineEndShift(text, g, rest, i + 1);
    } else if i < |rest| {
      assert text[g + i] == rest[i];
    }
  }

  /** A lowercase phrase is found, ignoring case, at the start of any text it begins. */
  lemma PhraseAtStart(text: string, phrase: string)
    requires |phrase| <= |text| && text[..|phrase|] == phrase
    requires forall i :: 0 <= i < |phrase| ==> !IsUpper(phrase[i])
    ensures PhraseAt(text, 0, phrase)
  {
    forall i | 0 <= i < |phrase| ensures LowerChar(text[0 + i]) == phrase[i] {
      assert text[0 + i] == text[..|phrase|][i];
    }
  }

  /** After a run of separators, the group starts at the first character that is not one. */
  lemma GroupAfterSeparators(text: string, q: nat, sep: string, rest: string)
    requires q <= |text| && text[q..] == sep + rest
    requires sep != [] && forall k :: 0 <= k < |sep| ==> IsSeparator(sep[k])
    requires rest != [] && !IsSeparator(rest[0])
    ensures GroupStart(text, q, SeparatorRun(text, q)) == Some(q + |sep|)
  {
    forall k | q <= k < q + |sep| ensures IsSeparator(text[k]) {
      assert text[k] == text[q..][k - q] == sep[k - q];
    }
    assert text[q + |sep|] == text[q..][|sep|] == rest[0];
    SeparatorRunExact(text, q, |sep|);
  }

  /** The parts of a three-part concatenation. */
  lemma ThreeParts(a: string, b: string, c: string)
    ensures (a + b + c)[..|a|] == a && (a + b + c)[|a|..] == b + c && (a + b + c)[|a| + |b|..] == c
  {
  }

  /** The pattern matches at the start of phrase, separators and text, capturing the rest of the first line. */
  lemma PhraseLineMatches(phrase: string, sep: string, rest: string)
    requires forall i :: 0 <= i < |phrase| ==> !IsUpper(phrase[i])
    requires sep != [] && forall k :: 0 <= k < |sep| ==> IsSeparator(sep[k])
    requires rest != [] && !IsSeparator(rest[0])
    ensures MatchAt(phrase + sep + rest, 0, phrase) == Some(rest[..LineEnd(rest, 0)])
  {
    var text := phrase + sep + rest;
    ThreeParts(phrase, sep, rest);
    PhraseAtStart(text, phrase);
    GroupAfterSeparators(text, |phrase|, sep, rest);
    MatchCapturesLine(text, 0, phrase, |phrase| + |sep|, rest);
  }

  /**
   * Where the phrase occurs and the group starts at `g`, the match captures
   * the first line of the suffix `rest` that starts at `g`.
   */
  lemma MatchCapturesLine(text: string, p: nat, phrase: string, g: nat, rest: string)
    requires PhraseAt(text, p, phrase)
    requires GroupStart(text, p + |phrase|, SeparatorRun(text, p + |phrase|)) == Some(g)
    requires text[g..] == rest
    ensures MatchAt(text, p, phrase) == Some(rest[..LineEnd(rest, 0)])
  {
    LineEndShift(text, g, rest, 0);
    assert text[g..LineEnd(text, g)] == rest[..LineEnd(rest, 0)];
  }

  /**
   * A message made of a trigger phrase, separators, and text that starts with
   * something other than a separator fires that trigger, capturing the rest
   * of the line.
   */
  lemma PhraseLineFires(rule: Rule, sep: string, rest: string)
    requires forall i :: 0 <= i < |rule.phrase| ==> !IsUpper(rule.phrase[i])
    requires sep != [] && forall k :: 0 <= k < |sep| ==> IsSeparator(sep[k])
    requires rest != [] && !IsSeparator(rest[0])
    ensures Fires(rule, rule.phrase + sep + rest)
            == Some(Trigger(Strip(rest[..LineEnd(rest, 0)]), rule.importance, Pattern(rule)))
  {
    PhraseLineMatches(rule.phrase, sep, rest);
  }

  /**
   * Every message of the form "remember this: <text>" raises as shipped, but
   * fires the first trigger as intended ("remember this: buy milk" is one).
   */
  lemma TriggerShippedRaises(sep: string, rest: string)
    requires sep != [] && forall k :: 0 <= k < |sep| ==> IsSeparator(sep[k])
    requires rest != [] && !IsSeparator(rest[0])
    ensures DetectTriggerAsShipped("remember this" + sep + rest) == Failure(NameError("re"))
    ensures DetectTrigger("remember this" + sep + rest).Some?
  {
    PhraseLineFires(RememberThis, sep, rest);
    FirstRuleWins(Rules, "remember this" + sep + rest);
  }

  /** The category `handle_memory_trigger` derives from the pattern that fired. */
  function CategoryOf(detectedTrigger: string): (c: string)
    ensures c in {"decision", "action", "important", "general"}
    ensures c == "decision" <==> Contains(detectedTrigger, "decide")
  {
    if Contains(detectedTrigger, "decide") then "decision"
    else if Contains(detectedTrigger, "action") || Contains(detectedTrigger, "make sure") then "action"
    else if Contains(detectedTrigger, "important") then "important"
    else "general"
  }

  /** A string is not contained where one of its characters does not occur. */
  lemma MissingChar(s: string, sub: string, c: char)
    requires c in sub && c !in s
    ensures !Contains(s, sub)
  {
    if Contains(s, sub) {
      ContainsChars(s, sub, c);
    }
  }

  /** A pattern lacks `sub` when its phrase and its separator suffix both lack a character of `sub`. */
  lemma PatternLacks(r: Rule, sub: string, c: char)
    requires c in sub && c !in r.phrase && c !in "[:\\s]+(.+)"
    ensures !Contains(Pattern(r), sub)
  {
    MissingChar(Pattern(r), sub, c);
  }

  /** "we decided" saves a decision. */
  lemma DecidedIsDecision()
    ensures CategoryOf(Pattern(WeDecided)) == "decision"
  {
    ContainsAt(Pattern(WeDecided), "decide", 3);
  }

  /** "make sure to" saves an action. */
  lemma MakeSureIsAction()
    ensures CategoryOf(Pattern(MakeSureTo)) == "action"
  {
    PatternLacks(MakeSureTo, "decide", 'd');
    ContainsAt(Pattern(MakeSureTo), "make sure", 0);
  }

  /** A rule whose phrase says "important" and no earlier keyword saves an important note. */
  lemma {:induction false} ImportantCategory(r: Rule)
    requires 'd' !in r.phrase && 'c' !in r.phrase && 'k' !in r.phrase && Contains(r.phrase, "important")
    ensures CategoryOf(Pattern(r)) == "important"
  {
    PatternLacks(r, "decide", 'd');
    PatternLacks(r, "action", 'c');
    PatternLacks(r, "make sure", 'k');
    ContainsExtend(r.phrase, "[:\\s]+(.+)", "important");
  }

  /** "this is important" saves an important note. */
  lemma ImportantIsImportant()
    ensures CategoryOf(Pattern(ThisIsImportant)) == "important"
  {
    ThisIsImportantLacks();
    ThisIsImportantSays();
    ImportantCategory(ThisIsImportant);
  }

  lemma ThisIsImportantLacks()
    ensures 'd' !in ThisIsImportant.phrase && 'c' !in ThisIsImportant.phrase && 'k' !in ThisIsImportant.phrase
  {
  }

  lemma ThisIsImportantSays()
    ensures Contains(ThisIsImportant.phrase, "important")
  {
    ContainsAt(ThisIsImportant.phrase, "important", 8);
  }

  /** A rule whose phrase has none of the keywords saves a general note. */
  lemma {:induction false} GeneralCategory(r: Rule)
    requires 'd' !in r.phrase && 'a' !in r.phrase && 'k' !in r.phrase && 'p' !in r.phrase
    ensures CategoryOf(Pattern(r)) == "general"
  {
    PatternLacks(r, "decide", 'd');
    PatternLacks(r, "action", 'a');
    PatternLacks(r, "make sure", 'k');
    PatternLacks(r, "important", 'p');
  }

  /** "remember this" saves a general note. */
  lemma RememberIsGeneral()
    ensures CategoryOf(Pattern(RememberThis)) == "general"
  {
    GeneralCategory(RememberThis);
  }
}
