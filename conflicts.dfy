/**
 * Conflict detection over the vector results of a query: two memories
 * conflict when they differ and both use wording from the same group of
 * indicators ("use … instead", "rather than", "actually", "switch" …).
 */
module Conflicts {
  import opened Wrappers
  import opened Seqs
  import opened Text
  import opened Retrieval

  /** `CONFLICT_INDICATORS`, in order. */
  const Indicators: seq<seq<string>> := [
    ["use", "prefer", "instead"],
    ["instead of", "not", "rather than"],
    ["actually", "really", "actually"],
    ["change", "update", "switch"]
  ]

  /** `any(p in text for p in group)` */
  predicate AnyIn(group: seq<string>, text: string) {
    exists p :: 0 <= p < |group| && Contains(text, group[p])
  }

  /** Two lowercase texts differ and share an indicator group. */
  predicate Contradicting(c1: string, c2: string) {
    c1 != c2 && exists g :: 0 <= g < |Indicators| && AnyIn(Indicators[g], c1) && AnyIn(Indicators[g], c2)
  }

  /** Two memory texts conflict: their lowercase forms contradict each other. */
  predicate IsConflict(content1: string, content2: string) {
    Contradicting(Lower(content1), Lower(content2))
  }

  /** The loop over the indicator groups for one pair of lowercase texts. */
  method CheckIndicators(c1: string, c2: string) returns (isConflict: bool)
    ensures isConflict <==> Contradicting(c1, c2)
  {
    isConflict := false;
    var g := 0;
    while g < |Indicators|
      invariant 0 <= g <= |Indicators|
      invariant !isConflict ==> forall h :: 0 <= h < g ==> !(AnyIn(Indicators[h], c1) && AnyIn(Indicators[h], c2) && c1 != c2)
      invariant isConflict ==> Contradicting(c1, c2)
    {
      if AnyIn(Indicators[g], c1) && AnyIn(Indicators[g], c2) {
        if c1 != c2 {
          isConflict := true;
          break;
        }
      }
      g := g + 1;
    }
  }

  /** One record of `detect_conflicts`. */
  datatype Conflict = Conflict(
    memory1: string, memory2: string,
    collection1: string, collection2: string,
    score1: real, score2: real,
    conflictType: string, resolution: string)

  function RecordOf(r1: Hit, r2: Hit): (c: Conflict)
    ensures |c.memory1| <= 200 && StartsWith(r1.content, c.memory1)
    ensures |c.memory2| <= 200 && StartsWith(r2.content, c.memory2)
    ensures c.conflictType == "contradiction" && c.resolution == "ASK_USER"
  {
    Conflict(Take(r1.content, 200), Take(r2.content, 200), r1.collection, r2.collection,
             r1.score, r2.score, "contradiction", "ASK_USER")
  }

  /**
   * The pairs `(i, j)` with `i < j < n` whose texts `conflict` reports, by
   * increasing `j`. The specification is stated for any pairwise test;
   * `detect_conflicts` uses `IsConflict`.
   */
  function RowPairs(v: seq<Hit>, i: nat, n: nat, conflict: (string, string) -> bool): seq<(nat, nat)>
    requires n <= |v|
  {
    if n <= i + 1 then []
    else RowPairs(v, i, n - 1, conflict) + (if conflict(v[i].content, v[n - 1].content) then [(i, n - 1)] else [])
  }

  /** The reported pairs whose first index is below `m`, in the order the nested loops find them. */
  function ConflictPairs(v: seq<Hit>, m: nat, conflict: (string, string) -> bool): seq<(nat, nat)>
    requires m <= |v|
  {
    if m == 0 then [] else ConflictPairs(v, m - 1, conflict) + RowPairs(v, m - 1, |v|, conflict)
  }

  predicate InRange(v: seq<Hit>, ps: seq<(nat, nat)>) {
    forall k :: 0 <= k < |ps| ==> ps[k].0 < |v| && ps[k].1 < |v|
  }

  /** The records of the pairs `ps`, in order. */
  function Records(v: seq<Hit>, ps: seq<(nat, nat)>): (r: seq<Conflict>)
    requires InRange(v, ps)
    ensures |r| == |ps|
  {
    if ps == [] then []
    else
      var last := ps[|ps| - 1];
      Records(v, ps[..|ps| - 1]) + [RecordOf(v[last.0], v[last.1])]
  }

  lemma {:induction false} RowPairsExact(v: seq<Hit>, i: nat, n: nat, conflict: (string, string) -> bool, a: nat, b: nat)
    requires n <= |v|
    ensures (a, b) in RowPairs(v, i, n, conflict) <==> a == i && i < b < n && conflict(v[i].content, v[b].content)
  {
    if n > i + 1 {
      var last: seq<(nat, nat)> := if conflict(v[i].content, v[n - 1].content) then [(i, n - 1)] else [];
      RowPairsExact(v, i, n - 1, conflict, a, b);
      InEither(RowPairs(v, i, n, conflict), RowPairs(v, i, n - 1, conflict), last, (a, b));
    }
  }

  /** A pair is reported exactly when its indices are in order and its texts conflict. */
  lemma ConflictPairsExact(v: seq<Hit>, m: nat, conflict: (string, string) -> bool, i: nat, j: nat)
    requires m <= |v|
    ensures (i, j) in ConflictPairs(v, m, conflict) <==> i < m && i < j < |v| && conflict(v[i].content, v[j].content)
  {
    if (i, j) in ConflictPairs(v, m, conflict) {
      ConflictPairsSound(v, m, conflict, i, j);
    }
    if i < m && i < j < |v| && conflict(v[i].content, v[j].content) {
      ConflictPairsComplete(v, m, conflict, i, j);
    }
  }

  lemma {:induction false} ConflictPairsSound(v: seq<Hit>, m: nat, conflict: (string, string) -> bool, i: nat, j: nat)
    requires m <= |v| && (i, j) in ConflictPairs(v, m, conflict)
    ensures i < m && i < j < |v| && conflict(v[i].content, v[j].content)
  {
    if m > 0 {
      var earlier := ConflictPairs(v, m - 1, conflict);
      var row := RowPairs(v, m - 1, |v|, conflict);
      InEither(ConflictPairs(v, m, conflict), earlier, row, (i, j));
      if (i, j) in earlier {
        ConflictPairsSound(v, m - 1, conflict, i, j);
      } else {
        RowPairsExact(v, m - 1, |v|, conflict, i, j);
      }
    }
  }

  lemma {:induction false} ConflictPairsComplete(v: seq<Hit>, m: nat, conflict: (string, string) -> bool, i: nat, j: nat)
    requires m <= |v| && i < m && i < j < |v| && conflict(v[i].content, v[j].content)
    ensures (i, j) in ConflictPairs(v, m, conflict)
  {
    var earlier := ConflictPairs(v, m - 1, conflict);
    var row := RowPairs(v, m - 1, |v|, conflict);
    InEither(ConflictPairs(v, m, conflict), earlier, row, (i, j));
    if i < m - 1 {
      ConflictPairsComplete(v, m - 1, conflict, i, j);
    } else {
      RowPairsExact(v, m - 1, |v|, conflict, i, j);
    }
  }

  /** Membership in a concatenation. */
  lemma InEither<T>(all: seq<T>, a: seq<T>, b: seq<T>, x: T)
    requires all == a + b
    ensures x in all <==> x in a || x in b
  {
  }

  lemma {:induction false} RowPairsInRange(v: seq<Hit>, i: nat, n: nat, conflict: (string, string) -> bool)
    requires n <= |v|
    ensures InRange(v, RowPairs(v, i, n, conflict))
  {
    var ps := RowPairs(v, i, n, conflict);
    forall k | 0 <= k < |ps| ensures ps[k].0 < |v| && ps[k].1 < |v| {
      assert ps[k] in ps;
      RowPairsExact(v, i, n, conflict, ps[k].0, ps[k].1);
    }
  }

  lemma {:induction false} ConflictPairsInRange(v: seq<Hit>, m: nat, conflict: (string, string) -> bool)
    requires m <= |v|
    ensures InRange(v, ConflictPairs(v, m, conflict))
  {
    var ps := ConflictPairs(v, m, conflict);
    forall k | 0 <= k < |ps| ensures ps[k].0 < |v| && ps[k].1 < |v| {
      assert ps[k] in ps;
      ConflictPairsExact(v, m, conflict, ps[k].0, ps[k].1);
    }
  }

  lemma {:induction false} RecordsAppend(v: seq<Hit>, a: seq<(nat, nat)>, b: seq<(nat, nat)>)
    requires InRange(v, a) && InRange(v, b)
    ensures InRange(v, a + b) && Records(v, a + b) == Records(v, a) + Records(v, b)
  {
    if b == [] {
      assert a + b == a;
    } else {
      var init := b[..|b| - 1];
      assert InRange(v, init);
      RecordsAppend(v, a, init);
      assert (a + b)[..|a + b| - 1] == a + init;
      assert (a + b)[|a + b| - 1] == b[|b| - 1];
    }
  }

  lemma RowStep(v: seq<Hit>, i: nat, j: nat, conflict: (string, string) -> bool, isConflict: bool)
    requires i < j < |v| && (isConflict <==> conflict(v[i].content, v[j].content))
    requires InRange(v, RowPairs(v, i, j, conflict)) && InRange(v, RowPairs(v, i, j + 1, conflict))
    ensures isConflict ==> Records(v, RowPairs(v, i, j + 1, conflict)) == Records(v, RowPairs(v, i, j, conflict)) + [RecordOf(v[i], v[j])]
    ensures !isConflict ==> Records(v, RowPairs(v, i, j + 1, conflict)) == Records(v, RowPairs(v, i, j, conflict))
  {
    var ps := RowPairs(v, i, j + 1, conflict);
    assert ps == RowPairs(v, i, j, conflict) + (if conflict(v[i].content, v[j].content) then [(i, j)] else []);
    if isConflict {
      assert ps == RowPairs(v, i, j, conflict) + [(i, j)];
      assert ps[..|ps| - 1] == RowPairs(v, i, j, conflict);
      assert ps[|ps| - 1] == (i, j);
    } else {
      assert ps == RowPairs(v, i, j, conflict);
    }
  }

  /** The inner loop of `detect_conflicts`: the records of row `i`, by increasing `j`. */
  method RowConflicts(v: seq<Hit>, i: nat) returns (row: seq<Conflict>)
    requires i < |v|
    ensures InRange(v, RowPairs(v, i, |v|, IsConflict)) && row == Records(v, RowPairs(v, i, |v|, IsConflict))
  {
    row := [];
    for j := i + 1 to |v|
      invariant InRange(v, RowPairs(v, i, j, IsConflict)) && row == Records(v, RowPairs(v, i, j, IsConflict))
    {
      RowPairsInRange(v, i, j + 1, IsConflict);
      var isConflict := CheckIndicators(Lower(v[i].content), Lower(v[j].content));
      RowStep(v, i, j, IsConflict, isConflict);
      if isConflict {
        row := row + [RecordOf(v[i], v[j])];
      }
    }
  }

  /**
   * `detect_conflicts` after the query: None for fewer than two results and
   * None when no pair conflicts, otherwise the record of every conflicting
   * pair `i < j`, found by the nested loops in order.
   */
  method FindConflicts(v: seq<Hit>) returns (r: Option<seq<Conflict>>)
    ensures |v| < 2 ==> r.None?
    ensures |v| >= 2 ==> InRange(v, ConflictPairs(v, |v|, IsConflict))
    ensures |v| >= 2 ==> (r.None? <==> ConflictPairs(v, |v|, IsConflict) == [])
    ensures r.Some? ==> r.value == Records(v, ConflictPairs(v, |v|, IsConflict)) && r.value != []
  {
    if |v| < 2 {
      return None;
    }
    var conflicts := AllConflicts(v);
    if conflicts == [] {
      return None;
    }
    return Some(conflicts);
  }

  /** The nested loops of `detect_conflicts`: the records of all rows, row by row. */
  method AllConflicts(v: seq<Hit>) returns (conflicts: seq<Conflict>)
    ensures InRange(v, ConflictPairs(v, |v|, IsConflict)) && conflicts == Records(v, ConflictPairs(v, |v|, IsConflict))
  {
    conflicts := [];
    for i := 0 to |v|
      invariant InRange(v, ConflictPairs(v, i, IsConflict)) && conflicts == Records(v, ConflictPairs(v, i, IsConflict))
    {
      var row := RowConflicts(v, i);
      RecordsAppend(v, ConflictPairs(v, i, IsConflict), RowPairs(v, i, |v|, IsConflict));
      conflicts := conflicts + row;
    }
  }

  /** The conflicts `detect_conflicts` returns are exactly the conflicting ordered pairs. */
  lemma FindConflictsComplete(v: seq<Hit>, i: nat, j: nat)
    requires i < j < |v| && IsConflict(v[i].content, v[j].content)
    ensures ConflictPairs(v, |v|, IsConflict) != []
  {
    ConflictPairsExact(v, |v|, IsConflict, i, j);
  }

  const QuestionHead: string := "⚠️ **Memory Conflict Detected**\n\nI found potentially conflicting memories:\n\n**Memory A**: \""
  const QuestionMiddle: string := "...\"\n**Memory B**: \""
  const QuestionTail: string :=
    "...\"\n\nAre these separate contexts (e.g., \"venv for apps, conda for data science\"), or should I update your preference?"

  lemma QuotesBoth(head: string, a: string, middle: string, b: string, tail: string)
    ensures Contains(head + a + middle + b + tail, a) && Contains(head + a + middle + b + tail, b)
  {
    ContainsSelf(a);
    ContainsSelf(b);
    ContainsInMiddle(head, a, middle + b + tail, a);
    ContainsInMiddle(head + a + middle, b, tail, b);
    assert head + a + (middle + b + tail) == head + a + middle + b + tail;
  }

  /**
   * `get_conflict_question`: nothing for no conflicts, otherwise a question
   * quoting the first 100 characters of both memories of the first conflict.
   */
  function ConflictQuestion(conflicts: Option<seq<Conflict>>): (q: Option<string>)
    ensures q.None? <==> conflicts.None? || conflicts.value == []
    ensures q.Some? ==> Contains(q.value, Take(conflicts.value[0].memory1, 100))
                        && Contains(q.value, Take(conflicts.value[0].memory2, 100))
  {
    if conflicts.None? || conflicts.value == [] then None
    else
      var c := conflicts.value[0];
      var a := Take(c.memory1, 100);
      var b := Take(c.memory2, 100);
      QuotesBoth(QuestionHead, a, QuestionMiddle, b, QuestionTail);
      Some(QuestionHead + a + QuestionMiddle + b + QuestionTail)
  }
}
