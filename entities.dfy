/**
 * Entity discovery: the capitalised multi-word phrases of a text
 * (`\b([A-Z][a-z]+(?:\s+[A-Z][a-z]+)+)\b` under `re.findall`) that are short
 * enough and not already quarantined or validated.
 */
module Entities {
  import opened Wrappers
  import opened Seqs
  import opened Text
  import opened Ledger

  // ---------------------------------------------------------------------------
  // The matcher
  // ---------------------------------------------------------------------------

  /** The end of the run of lowercase letters that starts at `i`. */
  function LowerRun(s: string, i: nat): (j: nat)
    requires i <= |s|
    ensures i <= j <= |s| && (j == |s| || !IsLower(s[j]))
    ensures forall k :: i <= k < j ==> IsLower(s[k])
    decreases |s| - i
  {
    if i < |s| && IsLower(s[i]) then LowerRun(s, i + 1) else i
  }

  /** The end of the run of whitespace that starts at `i`. */
  function SpaceRun(s: string, i: nat): (j: nat)
    requires i <= |s|
    ensures i <= j <= |s| && (j == |s| || !IsSpace(s[j]))
    ensures forall k :: i <= k < j ==> IsSpace(s[k])
    decreases |s| - i
  {
    if i < |s| && IsSpace(s[i]) then SpaceRun(s, i + 1) else i
  }

  /** `[A-Z][a-z]+` at `i`, taken greedily: the end of the word, if one starts there. */
  function WordEnd(s: string, i: nat): (r: Option<nat>)
    requires i <= |s|
    ensures r.Some? ==> i + 2 <= r.value <= |s| && IsUpper(s[i])
                        && (forall k :: i < k < r.value ==> IsLower(s[k]))
                        && (r.value == |s| || !IsLower(s[r.value]))
  {
    if i < |s| && IsUpper(s[i]) && LowerRun(s, i + 1) > i + 1 then Some(LowerRun(s, i + 1)) else None
  }

  /** The characters of a name phrase: ASCII letters and whitespace. */
  predicate Letters(s: string, a: nat, b: nat)
    requires a <= b <= |s|
  {
    forall k :: a <= k < b ==> IsUpper(s[k]) || IsLower(s[k]) || IsSpace(s[k])
  }

  /**
   * Where two characters meet inside a run of capitalised words: a capital
   * follows whitespace, a letter after whitespace is a capital, and a capital
   * is followed by a lowercase letter.
   */
  predicate Seam(s: string, k: nat)
    requires 0 < k < |s|
  {
    (IsUpper(s[k]) ==> IsSpace(s[k - 1]))
    && (IsSpace(s[k - 1]) && !IsSpace(s[k]) ==> IsUpper(s[k]))
    && (IsUpper(s[k - 1]) ==> IsLower(s[k]))
  }

  /**
   * The shape of a run of capitalised words and the whitespace between them:
   * letters and whitespace only, every inner seam as above, and no capital last.
   */
  predicate Shaped(s: string, a: nat, b: nat)
    requires a <= b <= |s|
  {
    Letters(s, a, b) && (forall k :: a < k < b ==> Seam(s, k)) && (a < b ==> !IsUpper(s[b - 1]))
  }

  /** A word found by `WordEnd` has the shape. */
  lemma WordShaped(s: string, i: nat)
    requires i <= |s| && WordEnd(s, i).Some?
    ensures Shaped(s, i, WordEnd(s, i).value)
  {
  }

  /** A run of whitespace has the shape. */
  lemma SpacesShaped(s: string, a: nat, b: nat)
    requires a <= b <= |s| && forall k :: a <= k < b ==> IsSpace(s[k])
    ensures Shaped(s, a, b)
  {
  }

  /** Two adjacent stretches of the shape make one when their seam is one too. */
  lemma ShapedJoin(s: string, a: nat, b: nat, c: nat)
    requires a < b < c <= |s| && Shaped(s, a, b) && Shaped(s, b, c) && Seam(s, b)
    ensures Shaped(s, a, c)
  {
    LettersJoin(s, a, b, c);
  }

  /**
   * The ends of the words that `(?:\s+[A-Z][a-z]+)` matches, again and again,
   * after a word that ends at `e`; each repetition takes the whole run of
   * whitespace and the whole lowercase tail, as backtracking cannot do better.
   */
  function NextWords(s: string, e: nat): (ends: seq<nat>)
    requires e <= |s|
    ensures forall t :: 0 <= t < |ends| ==> e < ends[t] <= |s|
    decreases |s| - e
  {
    var j := SpaceRun(s, e);
    if j > e && WordEnd(s, j).Some? then [WordEnd(s, j).value] + NextWords(s, WordEnd(s, j).value) else []
  }

  /**
   * Each repetition ends a stretch of letters and whitespace that starts
   * with whitespace right after `e` and ends with a lowercase letter.
   */
  lemma {:induction false} NextWordsShape(s: string, e: nat, t: nat) returns (x: nat)
    requires e <= |s| && t < |NextWords(s, e)|
    ensures x == NextWords(s, e)[t] && e < x <= |s|
    ensures e < |s| && IsSpace(s[e]) && Shaped(s, e, x) && IsLower(s[x - 1])
    decreases |s| - e
  {
    var w := NextWordsHead(s, e);
    var ends := NextWords(s, e);
    if t == 0 {
      x := w;
    } else {
      var rest := NextWords(s, w);
      assert ends[t] == rest[t - 1];
      x := NextWordsShape(s, w, t - 1);
      assert Seam(s, w);
      ShapedJoin(s, e, w, x);
    }
  }

  /** The first repetition: whitespace, then one word. */
  lemma NextWordsHead(s: string, e: nat) returns (w: nat)
    requires e <= |s| && |NextWords(s, e)| > 0
    ensures w == NextWords(s, e)[0] && NextWords(s, e) == [w] + NextWords(s, w)
    ensures e < w <= |s| && e < |s| && IsSpace(s[e]) && Shaped(s, e, w) && IsLower(s[w - 1])
  {
    var j := SpaceRun(s, e);
    w := WordEnd(s, j).value;
    SpacesShaped(s, e, j);
    WordShaped(s, j);
    ShapedJoin(s, e, j, w);
  }

  /** Every repetition but the last is followed by whitespace. */
  lemma {:induction false} NextWordsSpaced(s: string, e: nat, t: nat)
    requires e <= |s| && t + 1 < |NextWords(s, e)|
    ensures NextWords(s, e)[t] < |s| && IsSpace(s[NextWords(s, e)[t]])
    decreases |s| - e
  {
    var w := WordEnd(s, SpaceRun(s, e)).value;
    if t == 0 {
      var _ := NextWordsShape(s, w, 0);
    } else {
      NextWordsSpaced(s, w, t - 1);
    }
  }

  /** Two adjacent stretches of letters and whitespace make one. */
  lemma LettersJoin(s: string, a: nat, b: nat, c: nat)
    requires a <= b <= c <= |s| && Letters(s, a, b) && Letters(s, b, c)
    ensures Letters(s, a, c)
  {
    forall k | a <= k < c ensures IsUpper(s[k]) || IsLower(s[k]) || IsSpace(s[k]) {
      if k >= b {
        assert Letters(s, b, c);
      }
    }
  }

  /** `\b` just after position `e - 1`, following a letter. */
  predicate BoundaryAfter(s: string, e: nat)
    requires e <= |s|
  {
    e == |s| || !IsWordChar(s[e])
  }

  /**
   * One attempt of the pattern at `p`: the end of the match, if any. The
   * repetition keeps every word it can; when the last word runs on into
   * another word character, the closing `\b` fails there and the match gives
   * that word back, provided at least one repetition remains.
   */
  function MatchFrom(s: string, p: nat): (r: Option<nat>)
    requires p <= |s|
    ensures r.Some? ==> p < r.value <= |s| && BoundaryAfter(s, r.value)
  {
    if p < |s| && (p == 0 || !IsWordChar(s[p - 1])) && WordEnd(s, p).Some? then
      var more := NextWords(s, WordEnd(s, p).value);
      if |more| == 0 then None
      else if BoundaryAfter(s, more[|more| - 1]) then Some(more[|more| - 1])
      else if |more| >= 2 then NextWordsSpaced(s, WordEnd(s, p).value, |more| - 2); Some(more[|more| - 2])
      else None
    else None
  }

  /** Any repetition after a first word ends a stretch of letters that begins with that word and a space. */
  lemma WordsShape(s: string, p: nat, w: nat, more: seq<nat>, t: nat)
    requires p <= |s| && WordEnd(s, p) == Some(w) && more == NextWords(s, w) && t < |more|
    ensures p < w < more[t] <= |s| && IsSpace(s[w])
    ensures IsUpper(s[p]) && IsLower(s[more[t] - 1]) && Shaped(s, p, more[t])
  {
    var x := NextWordsShape(s, w, t);
    WordThenWords(s, p, w, x);
  }

  /** A capitalised word followed by a shaped stretch that opens with whitespace makes one shaped stretch. */
  lemma WordThenWords(s: string, p: nat, w: nat, x: nat)
    requires p + 2 <= w < x <= |s| && IsUpper(s[p]) && (forall k :: p < k < w ==> IsLower(s[k]))
    requires IsSpace(s[w]) && Shaped(s, w, x)
    ensures Shaped(s, p, x)
  {
    assert Seam(s, w);
    ShapedJoin(s, p, w, x);
  }

  /** A match ends at one of the repetitions after the first word. */
  lemma MatchFromParts(s: string, p: nat) returns (w: nat, more: seq<nat>, t: nat)
    requires p <= |s| && MatchFrom(s, p).Some?
    ensures WordEnd(s, p) == Some(w) && more == NextWords(s, w) && t < |more|
    ensures MatchFrom(s, p) == Some(more[t]) && (p == 0 || !IsWordChar(s[p - 1]))
  {
    w := WordEnd(s, p).value;
    more := NextWords(s, w);
    t := if BoundaryAfter(s, more[|more| - 1]) then |more| - 1 else |more| - 2;
  }

  /**
   * A capitalised phrase of two or more words, what the pattern can match:
   * it starts with a capital, ends with a lowercase letter, holds some
   * whitespace, and every word in it is a capital followed by lowercase letters.
   */
  predicate IsNamePhrase(m: string) {
    |m| >= 3 && IsUpper(m[0]) && IsLower(m[|m| - 1]) && Shaped(m, 0, |m|)
    && exists k :: 0 <= k < |m| && IsSpace(m[k])
  }

  /** Two capitalised words are a name phrase; a capital inside a word or an uncapitalised word is not. */
  lemma NamePhraseExamples()
    ensures IsNamePhrase("Ada Lovelace")
    ensures !IsNamePhrase("ADa Lovelace") && !IsNamePhrase("Ada lovelace") && !IsNamePhrase("Ada")
  {
    var good := "Ada Lovelace";
    assert IsSpace(good[3]);
    forall k | 0 < k < |good| ensures Seam(good, k) {
    }
    assert !Seam("ADa Lovelace", 1);
    assert !Seam("Ada lovelace", 4);
  }

  /** The shape of a stretch carries over to the slice that holds it. */
  lemma ShapedSlice(s: string, p: nat, e: nat)
    requires p <= e <= |s| && Shaped(s, p, e)
    ensures Shaped(s[p..e], 0, e - p)
  {
    var m := s[p..e];
    assert forall i :: 0 <= i < |m| ==> m[i] == s[p + i];
    forall k | 0 < k < |m| ensures Seam(m, k) {
      assert Seam(s, p + k);
    }
  }

  /** A shaped slice from a capital to a lowercase letter, with a space inside, is a name phrase. */
  lemma SliceIsNamePhrase(s: string, p: nat, e: nat, k: nat)
    requires p < k < e <= |s| && IsUpper(s[p]) && IsLower(s[e - 1]) && Shaped(s, p, e) && IsSpace(s[k])
    ensures IsNamePhrase(s[p..e])
  {
    var m := s[p..e];
    assert IsSpace(m[k - p]);
    ShapedSlice(s, p, e);
  }

  /** The text of a match is a name phrase found in the text. */
  lemma MatchIsNamePhrase(s: string, p: nat, e: nat)
    requires p <= |s| && MatchFrom(s, p) == Some(e)
    ensures p < e <= |s| && IsNamePhrase(s[p..e]) && Contains(s, s[p..e])
  {
    var w, more, t := MatchFromParts(s, p);
    WordsArePhrase(s, p, w, more, t);
  }

  /** A first word and any number of repetitions after it spell a name phrase of the text. */
  lemma WordsArePhrase(s: string, p: nat, w: nat, more: seq<nat>, t: nat)
    requires p <= |s| && WordEnd(s, p) == Some(w) && more == NextWords(s, w) && t < |more|
    ensures p < more[t] <= |s| && IsNamePhrase(s[p..more[t]]) && Contains(s, s[p..more[t]])
  {
    var e := more[t];
    WordsShape(s, p, w, more, t);
    SliceIsNamePhrase(s, p, e, w);
    ContainsSlice(s, p, e);
  }

  /** `re.findall` from position `p`: non-overlapping matches, left to right. */
  function FindAll(s: string, p: nat): seq<string>
    requires p <= |s|
    decreases |s| - p
  {
    if p >= |s| then []
    else
      match MatchFrom(s, p)
      case Some(e) => [s[p..e]] + FindAll(s, e)
      case None => FindAll(s, p + 1)
  }

  /**
   * A match at `q`, with no match starting between `p` and `q`, is the first
   * phrase found by a scan from `p`: the scan misses no match it reaches.
   */
  lemma {:induction false} FindAllFirst(s: string, p: nat, q: nat, e: nat)
    requires p <= q < |s| && MatchFrom(s, q) == Some(e)
    requires forall i :: p <= i < q ==> MatchFrom(s, i).None?
    ensures |FindAll(s, p)| > 0 && FindAll(s, p)[0] == s[q..e]
    decreases q - p
  {
    if p < q {
      FindAllFirst(s, p + 1, q, e);
    }
  }

  /** A scan from `p` finds nothing exactly when no match starts at or after `p`. */
  lemma {:induction false} FindAllNone(s: string, p: nat)
    requires p <= |s|
    ensures FindAll(s, p) == [] <==> forall i :: p <= i < |s| ==> MatchFrom(s, i).None?
    decreases |s| - p
  {
    if p < |s| {
      FindAllNone(s, p + 1);
    }
  }

  /** Each phrase a scan from `p` finds is the match that starts at some position `q` at or after `p`. */
  lemma {:induction false} FindAllSource(s: string, p: nat, t: nat) returns (q: nat, e: nat)
    requires p <= |s| && t < |FindAll(s, p)|
    ensures p <= q < e <= |s| && MatchFrom(s, q) == Some(e) && FindAll(s, p)[t] == s[q..e]
    decreases |s| - p
  {
    var m := MatchFrom(s, p);
    if m.Some? {
      var rest := FindAll(s, m.value);
      assert FindAll(s, p) == [s[p..m.value]] + rest;
      if t == 0 {
        q, e := p, m.value;
      } else {
        q, e := FindAllSource(s, m.value, t - 1);
        assert FindAll(s, p)[t] == rest[t - 1];
      }
    } else {
      q, e := FindAllSource(s, p + 1, t);
    }
  }

  /** Every phrase a scan finds is a name phrase contained in the text. */
  lemma FindAllPhrases(s: string, p: nat, t: nat)
    requires p <= |s| && t < |FindAll(s, p)|
    ensures IsNamePhrase(FindAll(s, p)[t]) && Contains(s, FindAll(s, p)[t])
  {
    var q, e := FindAllSource(s, p, t);
    MatchIsNamePhrase(s, q, e);
  }

  // ---------------------------------------------------------------------------
  // Counting words: `len(phrase.split())`
  // ---------------------------------------------------------------------------

  /** Position `i` starts a whitespace-separated token. */
  predicate TokenStart(s: string, i: nat)
    requires i < |s|
  {
    !IsSpace(s[i]) && (i == 0 || IsSpace(s[i - 1]))
  }

  /** `len(s.split())`: the number of maximal runs of non-whitespace characters. */
  function TokenCount(s: string): nat {
    if s == [] then 0
    else TokenCount(s[..|s| - 1]) + (if TokenStart(s, |s| - 1) then 1 else 0)
  }

  lemma {:induction false} TokenCountPrefix(s: string, n: nat)
    requires n <= |s|
    ensures TokenCount(s[..n]) <= TokenCount(s)
    decreases |s| - n
  {
    if n < |s| {
      TokenCountPrefix(s, n + 1);
      assert s[..n + 1][..n] == s[..n];
    } else {
      assert s[..n] == s;
    }
  }

  /** Some whitespace followed, somewhere later, by a non-whitespace character starts a second token. */
  lemma {:induction false} LaterTokenStart(s: string, k: nat, e: nat) returns (j: nat)
    requires k < e < |s| && IsSpace(s[k]) && !IsSpace(s[e])
    ensures k < j <= e && IsSpace(s[j - 1]) && !IsSpace(s[j])
    decreases e - k
  {
    if IsSpace(s[k + 1]) {
      j := LaterTokenStart(s, k + 1, e);
    } else {
      j := k + 1;
    }
  }

  /** Every name phrase has at least two words. */
  lemma NamePhraseTokens(m: string)
    requires IsNamePhrase(m)
    ensures TokenCount(m) >= 2
  {
    var k :| 0 <= k < |m| && IsSpace(m[k]);
    var j := LaterTokenStart(m, k, |m| - 1);
    var a := m[..1];
    assert TokenCount(a) == 1 by {
      assert a[..0] == [];
      assert TokenStart(a, 0);
    }
    var b := m[..j + 1];
    assert b[..1] == a;
    TokenCountPrefix(b, 1);
    TokenCountPrefix(m, j);
    TokenCountPrefix(m, j + 1);
    assert b[..j] == m[..j];
    assert TokenStart(b, j);
    assert m[..j][..1] == a;
    TokenCountPrefix(m[..j], 1);
  }

  // ---------------------------------------------------------------------------
  // Discovery
  // ---------------------------------------------------------------------------

  /** The stop words of `discover_entities`. */
  const StopWords: set<string> := {
    "I", "We", "You", "He", "She", "It", "They", "The", "A", "An",
    "This", "That", "These", "Those", "When", "Where", "How", "Why"
  }

  /** Every stop word is a single word: letters only. */
  lemma StopWordsAreSingleWords(w: string)
    requires w in StopWords
    ensures forall k :: 0 <= k < |w| ==> !IsSpace(w[k])
  {
  }

  /** The stop-word test never rejects a match, as every match has two words. */
  lemma MatchIsNoStopWord(m: string)
    requires IsNamePhrase(m)
    ensures m !in StopWords
  {
    var k :| 0 <= k < |m| && IsSpace(m[k]);
    if m in StopWords {
      StopWordsAreSingleWords(m);
    }
  }

  /** `discover_entities`' test for one match. */
  predicate IsNew(m: string, q: seq<QuarantineRecord>, v: seq<ValidatedRecord>) {
    m !in StopWords && TokenCount(m) <= 4 && m !in QuarantineNames(q) && m !in ValidatedNames(v)
  }

  /** The matches that pass `discover_entities`' test, in the order of `ms`. */
  function NewMatches(ms: seq<string>, q: seq<QuarantineRecord>, v: seq<ValidatedRecord>): seq<string> {
    if ms == [] then []
    else NewMatches(ms[..|ms| - 1], q, v) + (if IsNew(ms[|ms| - 1], q, v) then [ms[|ms| - 1]] else [])
  }

  /** A string is kept exactly when it is one of the matches and passes the test. */
  lemma {:induction false} NewMatchesExact(ms: seq<string>, q: seq<QuarantineRecord>, v: seq<ValidatedRecord>, x: string)
    ensures x in NewMatches(ms, q, v) <==> x in ms && IsNew(x, q, v)
    decreases |ms|
  {
    if ms != [] {
      var init := ms[..|ms| - 1];
      NewMatchesExact(init, q, v, x);
      assert ms == init + [ms[|ms| - 1]];
    }
  }

  /** The phrases `discover_entities` reports for `text`, as a set. */
  function Discovered(text: string, q: seq<QuarantineRecord>, v: seq<ValidatedRecord>): set<string> {
    set x | x in NewMatches(FindAll(text, 0), q, v)
  }

  /**
   * A phrase is discovered exactly when the pattern matches it in the text,
   * it has at most four words, and no quarantine or validated record has
   * that name; it then is a capitalised phrase of two to four words.
   */
  lemma DiscoveredExact(text: string, q: seq<QuarantineRecord>, v: seq<ValidatedRecord>, x: string)
    ensures x in Discovered(text, q, v)
            <==> x in FindAll(text, 0) && TokenCount(x) <= 4
                 && (forall k :: 0 <= k < |q| ==> q[k].name != x)
                 && (forall k :: 0 <= k < |v| ==> v[k].name != x)
    ensures x in Discovered(text, q, v) ==> IsNamePhrase(x) && Contains(text, x) && 2 <= TokenCount(x) <= 4
  {
    var all := FindAll(text, 0);
    NewMatchesExact(all, q, v, x);
    if x in all {
      var t :| 0 <= t < |all| && all[t] == x;
      FindAllPhrases(text, 0, t);
      MatchIsNoStopWord(x);
      NamePhraseTokens(x);
    }
  }
}
