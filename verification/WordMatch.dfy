/** `matchesWordBoundary` of `redaction/sensitive_fields.go`: a left-to-right scan that never looks
    again inside an occurrence it has rejected. Strings are sequences of characters with ASCII classes;
    any other character counts as non-alphanumeric. */
module WordMatch {

  predicate IsUpper(c: char) { 'A' <= c <= 'Z' }
  predicate IsLower(c: char) { 'a' <= c <= 'z' }
  predicate IsDigit(c: char) { '0' <= c <= '9' }
  predicate IsAlphanumeric(c: char) { IsLower(c) || IsUpper(c) || IsDigit(c) }

  predicate OccursAt(field: string, pattern: string, i: nat) {
    i + |pattern| <= |field| && field[i..i + |pattern|] == pattern
  }

  /** `i` and `i + |pattern|` are each at an end of the field or beside a non-alphanumeric character. */
  predicate BoundedAt(field: string, pattern: string, i: nat) {
    && OccursAt(field, pattern, i)
    && (i == 0 || !IsAlphanumeric(field[i-1]))
    && (i + |pattern| == |field| || !IsAlphanumeric(field[i + |pattern|]))
  }

  /** `strings.Index` from a position on: the first occurrence, or -1. */
  function IndexFrom(field: string, pattern: string, from: nat): (idx: int)
    ensures idx == -1 || (idx >= from && OccursAt(field, pattern, idx))
    decreases |field| - from
  {
    if from + |pattern| > |field| then -1
    else if OccursAt(field, pattern, from) then from
    else if from == |field| then -1
    else IndexFrom(field, pattern, from + 1)
  }

  lemma {:induction false} IndexIsFirst(field: string, pattern: string, from: nat, at: nat)
    requires from <= at && OccursAt(field, pattern, at)
    ensures 0 <= IndexFrom(field, pattern, from) <= at
    decreases |field| - from
  {
    if !OccursAt(field, pattern, from) {
      IndexIsFirst(field, pattern, from + 1, at);
    }
  }

  predicate ScanFrom(field: string, pattern: string, from: nat)
    requires |pattern| > 0
    decreases |field| - from
  {
    var idx := IndexFrom(field, pattern, from);
    idx != -1 &&
    (BoundedAt(field, pattern, idx) || (idx + |pattern| < |field| && ScanFrom(field, pattern, idx + |pattern|)))
  }

  predicate Matches(field: string, pattern: string) {
    |pattern| > 0 && ScanFrom(field, pattern, 0)
  }

  method MatchesWordBoundary(field: string, pattern: string) returns (found: bool)
    ensures found == Matches(field, pattern)
  {
    if |pattern| == 0 {
      return false;
    }
    ghost var from := 0;
    var idx := IndexFrom(field, pattern, 0);
    while idx != -1
      invariant idx == IndexFrom(field, pattern, from)
      invariant Matches(field, pattern) == ScanFrom(field, pattern, from)
      decreases |field| - from
    {
      var start, end := idx, idx + |pattern|;
      var startOk := start == 0 || !IsAlphanumeric(field[start-1]);
      var endOk := end == |field| || !IsAlphanumeric(field[end]);
      if startOk && endOk {
        return true;
      }
      if end >= |field| {
        return false;
      }
      from := end;
      idx := IndexFrom(field, pattern, end);
    }
    return false;
  }

  // ---------------------------------------------------------------- soundness and completeness

  lemma {:induction false} ScanIsSound(field: string, pattern: string, from: nat) returns (at: nat)
    requires |pattern| > 0 && ScanFrom(field, pattern, from)
    ensures BoundedAt(field, pattern, at)
    decreases |field| - from
  {
    var idx := IndexFrom(field, pattern, from);
    if BoundedAt(field, pattern, idx) {
      at := idx;
    } else {
      at := ScanIsSound(field, pattern, idx + |pattern|);
    }
  }

  /** A proper suffix that starts right after a non-alphanumeric character and is also a prefix. */
  predicate BorderAt(pattern: string, k: nat) {
    0 < k < |pattern| && !IsAlphanumeric(pattern[k-1]) && pattern[k..] == pattern[..|pattern| - k]
  }

  predicate HasWordBorder(pattern: string) {
    exists k :: 0 < k < |pattern| && BorderAt(pattern, k)
  }

  lemma OccurrenceChar(field: string, pattern: string, at: nat, i: nat)
    requires OccursAt(field, pattern, at) && i < |pattern|
    ensures pattern[i] == field[at + i]
  {
    assert field[at..at + |pattern|][i] == field[at + i];
  }

  /** Two overlapping occurrences, the second after a non-alphanumeric character, make a border. */
  lemma OverlapIsBorder(field: string, pattern: string, idx: nat, at: nat)
    requires idx < at < idx + |pattern|
    requires OccursAt(field, pattern, idx) && BoundedAt(field, pattern, at)
    ensures BorderAt(pattern, at - idx)
  {
    var k := at - idx;
    forall i | 0 <= i < |pattern| - k ensures pattern[k..][i] == pattern[..|pattern| - k][i] {
      OccurrenceChar(field, pattern, idx, k + i);
      OccurrenceChar(field, pattern, at, i);
    }
    OccurrenceChar(field, pattern, idx, k - 1);
  }

  lemma {:induction false} ScanIsCompleteFrom(field: string, pattern: string, from: nat, at: nat)
    requires |pattern| > 0 && !HasWordBorder(pattern)
    requires from <= at && BoundedAt(field, pattern, at)
    ensures ScanFrom(field, pattern, from)
    decreases |field| - from
  {
    var idx := IndexFrom(field, pattern, from);
    IndexIsFirst(field, pattern, from, at);
    if !BoundedAt(field, pattern, idx) {
      if at < idx + |pattern| {
        OverlapIsBorder(field, pattern, idx, at);
      }
      hide IndexFrom, IsAlphanumeric, BorderAt;
      ScanIsCompleteFrom(field, pattern, idx + |pattern|, at);
    }
  }

  /** The smallest field on which the scan jumps over the one bounded occurrence of a bordered pattern. */
  lemma BorderedPatternIsMissed(pattern: string, k: nat) returns (field: string, at: nat)
    requires BorderAt(pattern, k)
    ensures BoundedAt(field, pattern, at) && !Matches(field, pattern)
  {
    var c := if pattern[0] == 'a' then 'b' else 'a';
    field, at := [c] + pattern[..k] + pattern, 1 + k;
    assert field[at..at + |pattern|] == pattern;
    assert field[1..1 + |pattern|] == pattern by {
      assert field[1..1 + |pattern|] == pattern[..k] + pattern[..|pattern| - k];
    }
    assert field[0..|pattern|][0] == c;
    assert !OccursAt(field, pattern, 0) && OccursAt(field, pattern, 1);
    IndexIsFirst(field, pattern, 0, 1);
    assert IndexFrom(field, pattern, 0) == 1 && !BoundedAt(field, pattern, 1);
    assert !ScanFrom(field, pattern, 1 + |pattern|);
    assert IndexFrom(field, pattern, 1 + |pattern|) == -1;
  }

  /** The scan finds a bounded occurrence whenever a field has one. */
  ghost predicate ScanNeverMisses(pattern: string) {
    forall field: string, at: nat :: BoundedAt(field, pattern, at) ==> Matches(field, pattern)
  }

  /** Exactly which patterns the non-overlapping scan serves correctly on every field. */
  lemma ScanNeverMissesIff(pattern: string)
    requires |pattern| > 0
    ensures ScanNeverMisses(pattern) <==> !HasWordBorder(pattern)
  {
    if HasWordBorder(pattern) {
      var k :| 0 < k < |pattern| && BorderAt(pattern, k);
      var field, at := BorderedPatternIsMissed(pattern, k);
    } else {
      forall field: string, at: nat | BoundedAt(field, pattern, at) ensures Matches(field, pattern) {
        ScanIsCompleteFrom(field, pattern, 0, at);
      }
    }
  }

  /** On every field, and for every pattern without a word border, the answer is exactly whether the
      pattern occurs between word boundaries. */
  lemma MatchesIff(field: string, pattern: string)
    requires !HasWordBorder(pattern)
    ensures Matches(field, pattern) <==> |pattern| > 0 && exists at: nat :: BoundedAt(field, pattern, at)
  {
    if Matches(field, pattern) {
      var at := ScanIsSound(field, pattern, 0);
    } else if |pattern| > 0 {
      ScanNeverMissesIff(pattern);
    }
  }

  lemma MatchesItself(s: string)
    requires |s| > 0
    ensures Matches(s, s)
  {
    assert s[0..|s|] == s;
    assert OccursAt(s, s, 0);
  }
}
