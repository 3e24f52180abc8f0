/** Literal search with a line cursor, replace-all, and the per-line segments of the highlighter. */
module Search {
  import opened Base
  import opened Text

  datatype MatchInfo = MatchInfo(start: nat, end: nat, lineIndex: nat)

  /** The case folding a case-insensitive regular expression applies to each code unit. */
  type Fold = char -> char

  predicate OccursAt(fold: Fold, text: string, query: string, i: nat) {
    i + |query| <= |text| && forall k :: 0 <= k < |query| ==> fold(text[i + k]) == fold(query[k])
  }

  function Newlines(text: string): nat {
    if text == [] then 0 else Newlines(text[..|text| - 1]) + if text[|text| - 1] == '\n' then 1 else 0
  }

  // -------------------------------------------------------------------------
  // What a search finds
  // -------------------------------------------------------------------------

  ghost predicate IsMatch(fold: Fold, text: string, query: string, m: MatchInfo) {
    m.end == m.start + |query| && OccursAt(fold, text, query, m.start) && m.lineIndex == Newlines(text[..m.start])
  }

  ghost predicate Disjoint(matches: seq<MatchInfo>) {
    forall i, j :: 0 <= i < j < |matches| ==> matches[i].end <= matches[j].start
  }

  /** An occurrence that starts before `limit` starts inside a match. */
  ghost predicate Exhaustive(fold: Fold, text: string, query: string, matches: seq<MatchInfo>, limit: nat) {
    forall p :: 0 <= p < limit ==> CaughtAt(fold, text, query, matches, p)
  }

  ghost predicate CaughtAt(fold: Fold, text: string, query: string, matches: seq<MatchInfo>, p: nat) {
    OccursAt(fold, text, query, p) ==> Inside(matches, p)
  }

  ghost predicate Inside(matches: seq<MatchInfo>, p: nat) {
    exists i :: 0 <= i < |matches| && matches[i].start <= p < matches[i].end
  }

  /** The leftmost non-overlapping occurrences with their line numbers. */
  ghost predicate IsScan(fold: Fold, text: string, query: string, matches: seq<MatchInfo>) {
    && (forall i :: 0 <= i < |matches| ==> IsMatch(fold, text, query, matches[i]))
    && Disjoint(matches)
    && Exhaustive(fold, text, query, matches, |text|)
  }

  // -------------------------------------------------------------------------
  // The scan
  // -------------------------------------------------------------------------

  /** The next newline at or after `from`. */
  method NextNewline(text: string, from: nat) returns (r: Option<nat>)
    requires from <= |text|
    ensures r.Some? ==> from <= r.value < |text| && text[r.value] == '\n' && '\n' !in text[from..r.value]
    ensures r.None? ==> '\n' !in text[from..]
  {
    var i := from;
    while i < |text|
      invariant from <= i <= |text| && '\n' !in text[from..i]
    {
      if text[i] == '\n' {
        return Some(i);
      }
      assert text[from..i + 1] == text[from..i] + [text[i]];
      i := i + 1;
    }
    return None;
  }

  /** The next occurrence at or after `from`. */
  method Exec(fold: Fold, text: string, query: string, from: nat) returns (r: Option<nat>)
    requires from <= |text| && query != []
    ensures r.Some? ==> from <= r.value && OccursAt(fold, text, query, r.value)
    ensures forall p :: from <= p < (if r.Some? then r.value else |text|) ==> !OccursAt(fold, text, query, p)
  {
    var i := from;
    while i < |text|
      invariant from <= i <= |text|
      invariant forall p :: from <= p < i ==> !OccursAt(fold, text, query, p)
    {
      if OccursAt(fold, text, query, i) {
        return Some(i);
      }
      i := i + 1;
    }
    return None;
  }

  lemma {:induction false} NewlinesConcat(a: string, b: string)
    ensures Newlines(a + b) == Newlines(a) + Newlines(b)
  {
    if b == [] {
      assert a + b == a;
    } else {
      assert (a + b)[..|a + b| - 1] == a + b[..|b| - 1];
      NewlinesConcat(a, b[..|b| - 1]);
    }
  }

  lemma {:induction false} NoNewlines(a: string)
    requires '\n' !in a
    ensures Newlines(a) == 0
  {
    if a != [] {
      NoNewlines(a[..|a| - 1]);
    }
  }

  /** Nothing to count between the cursor and `to`. */
  lemma {:induction false} CursorStands(text: string, cursor: nat, to: nat)
    requires cursor <= to <= |text| && '\n' !in text[cursor..to]
    ensures Newlines(text[..to]) == Newlines(text[..cursor])
  {
    assert text[..to] == text[..cursor] + text[cursor..to];
    NewlinesConcat(text[..cursor], text[cursor..to]);
    NoNewlines(text[cursor..to]);
  }

  /** Moves the cursor past the newlines before `start`. */
  method AdvanceCursor(text: string, start: nat, line0: nat, next0: Option<nat>, ghost cursor0: nat)
    returns (line: nat, next: Option<nat>, ghost cursor: nat)
    requires cursor0 <= start <= |text| && CursorAt(text, line0, next0, cursor0)
    ensures cursor <= start && CursorAt(text, line, next, cursor)
    ensures line == Newlines(text[..start])
  {
    line, next, cursor := line0, next0, cursor0;
    while next.Some? && next.value < start
      invariant cursor <= start && CursorAt(text, line, next, cursor)
      decreases |text| - cursor
    {
      assert text[..next.value + 1] == text[..cursor] + text[cursor..next.value] + ['\n'];
      CursorStands(text, cursor, next.value);
      assert text[..next.value + 1][..next.value] == text[..next.value];
      line := line + 1;
      cursor := next.value + 1;
      next := NextNewline(text, next.value + 1);
    }
    assert '\n' !in text[cursor..start] by {
      assert forall k :: cursor <= k < start ==> text[cursor..][k - cursor] == text[k];
      if next.Some? {
        assert forall k :: cursor <= k < start ==> text[cursor..next.value][k - cursor] == text[k];
      }
    }
    CursorStands(text, cursor, start);
  }

  /** `line` newlines lie before `cursor`, and `next` is the first one from there. */
  ghost predicate CursorAt(text: string, line: nat, next: Option<nat>, cursor: nat) {
    && cursor <= |text| && line == Newlines(text[..cursor])
    && (next.Some? ==> cursor <= next.value < |text| && text[next.value] == '\n' && '\n' !in text[cursor..next.value])
    && (next.None? ==> '\n' !in text[cursor..])
  }

  method FindMatches(fold: Fold, text: string, query: string) returns (matches: seq<MatchInfo>)
    ensures query == [] ==> matches == []
    ensures query != [] ==> IsScan(fold, text, query, matches)
  {
    matches := [];
    if query == [] || text == [] {
      return;
    }
    var line: nat := 0;
    var next := NextNewline(text, 0);
    ghost var cursor: nat := 0;
    var lastIndex := 0;
    while true
      invariant lastIndex <= |text| && cursor <= lastIndex && CursorAt(text, line, next, cursor)
      invariant forall i :: 0 <= i < |matches| ==> IsMatch(fold, text, query, matches[i]) && matches[i].end <= lastIndex
      invariant Disjoint(matches) && Exhaustive(fold, text, query, matches, lastIndex)
      decreases |text| - lastIndex
    {
      var found := Exec(fold, text, query, lastIndex);
      if found == None {
        break;
      }
      var start := found.value;
      line, next, cursor := AdvanceCursor(text, start, line, next, cursor);
      ghost var before := matches;
      matches := matches + [MatchInfo(start, start + |query|, line)];
      OneMoreMatch(fold, text, query, before, matches[|before|], lastIndex);
      lastIndex := start + |query|;
    }
  }

  lemma {:induction false} OneMoreMatch(fold: Fold, text: string, query: string, matches: seq<MatchInfo>,
      m: MatchInfo, from: nat)
    requires Exhaustive(fold, text, query, matches, from) && from <= m.start && m.end == m.start + |query|
    requires forall p :: from <= p < m.start ==> !OccursAt(fold, text, query, p)
    ensures Exhaustive(fold, text, query, matches + [m], m.end)
  {
    var more := matches + [m];
    forall p | 0 <= p < m.end ensures CaughtAt(fold, text, query, more, p) {
      if OccursAt(fold, text, query, p) {
        if p < from {
          assert CaughtAt(fold, text, query, matches, p);
          var i :| 0 <= i < |matches| && matches[i].start <= p < matches[i].end;
          assert more[i] == matches[i];
        } else {
          assert more[|matches|] == m;
        }
      }
    }
  }

  // -------------------------------------------------------------------------
  // There is only one such list
  // -------------------------------------------------------------------------

  /** Starting points that keep `width` apart and leave no occurrence outside the stretches. */
  ghost predicate Greedy(occurs: nat -> bool, width: nat, starts: seq<nat>) {
    && (forall i :: 0 <= i < |starts| ==> occurs(starts[i]))
    && (forall i, j :: 0 <= i < j < |starts| ==> starts[i] + width <= starts[j])
    && (forall p :: Reached(occurs, width, starts, p))
  }

  ghost predicate Reached(occurs: nat -> bool, width: nat, starts: seq<nat>, p: nat) {
    occurs(p) ==> exists i :: 0 <= i < |starts| && starts[i] <= p < starts[i] + width
  }

  /** After a common beginning, the next start of the one comes no later than that of the other. */
  lemma {:induction false} StartsNoLater(occurs: nat -> bool, width: nat, a: seq<nat>, b: seq<nat>, i: nat)
    requires width > 0 && Greedy(occurs, width, a) && Greedy(occurs, width, b)
    requires i < |a| && i <= |b| && forall n :: 0 <= n < i ==> a[n] == b[n]
    ensures i < |b| && b[i] <= a[i]
  {
    assert occurs(a[i]) && Reached(occurs, width, b, a[i]);
    var j :| 0 <= j < |b| && b[j] <= a[i] < b[j] + width;
    assert forall n :: 0 <= n < i ==> b[n] + width <= a[i];
    assert j > i ==> b[i] + width <= b[j];
  }

  lemma {:induction false} GreedyAgree(occurs: nat -> bool, width: nat, a: seq<nat>, b: seq<nat>, i: nat)
    requires width > 0 && Greedy(occurs, width, a) && Greedy(occurs, width, b) && i <= |a|
    ensures i <= |b| && forall n :: 0 <= n < i ==> a[n] == b[n]
    decreases i
  {
    if i > 0 {
      GreedyAgree(occurs, width, a, b, i - 1);
      StartsNoLater(occurs, width, a, b, i - 1);
      StartsNoLater(occurs, width, b, a, i - 1);
    }
  }

  ghost function StartsOf(matches: seq<MatchInfo>): (r: seq<nat>)
    ensures |r| == |matches| && forall i :: 0 <= i < |r| ==> r[i] == matches[i].start
  {
    seq(|matches|, i requires 0 <= i < |matches| => matches[i].start)
  }

  ghost function Occurrences(fold: Fold, text: string, query: string): nat -> bool {
    (i: nat) => OccursAt(fold, text, query, i)
  }

  lemma {:induction false} ScanIsGreedy(fold: Fold, text: string, query: string, matches: seq<MatchInfo>)
    requires query != [] && IsScan(fold, text, query, matches)
    ensures Greedy(Occurrences(fold, text, query), |query|, StartsOf(matches))
  {
    var starts := StartsOf(matches);
    forall i | 0 <= i < |matches|
      ensures OccursAt(fold, text, query, starts[i]) && matches[i].end == starts[i] + |query|
    {
      assert IsMatch(fold, text, query, matches[i]);
    }
    forall p: nat ensures Reached(Occurrences(fold, text, query), |query|, starts, p) {
      if OccursAt(fold, text, query, p) {
        assert CaughtAt(fold, text, query, matches, p);
        var i :| 0 <= i < |matches| && matches[i].start <= p < matches[i].end;
        assert starts[i] <= p < starts[i] + |query|;
      }
    }
  }

  /** A text and a query determine the list of matches, line numbers included. */
  lemma {:induction false} ScanIsUnique(fold: Fold, text: string, query: string, a: seq<MatchInfo>, b: seq<MatchInfo>)
    requires query != [] && IsScan(fold, text, query, a) && IsScan(fold, text, query, b)
    ensures a == b
  {
    ScanIsGreedy(fold, text, query, a);
    ScanIsGreedy(fold, text, query, b);
    var occurs := Occurrences(fold, text, query);
    GreedyAgree(occurs, |query|, StartsOf(a), StartsOf(b), |a|);
    GreedyAgree(occurs, |query|, StartsOf(b), StartsOf(a), |b|);
    forall i | 0 <= i < |a| ensures a[i] == b[i] {
      assert StartsOf(a)[i] == StartsOf(b)[i];
      assert IsMatch(fold, text, query, a[i]) && IsMatch(fold, text, query, b[i]);
    }
  }

  // -------------------------------------------------------------------------
  // Replace-all
  // -------------------------------------------------------------------------

  /** Matches inside the text, apart from each other and in order. */
  ghost predicate Spread(text: string, matches: seq<MatchInfo>) {
    Disjoint(matches) && forall i :: 0 <= i < |matches| ==> matches[i].start <= matches[i].end <= |text|
  }

  /** Left to right: what is between matches is copied, each match gives way to `replacement`. */
  function Substituted(text: string, matches: seq<MatchInfo>, replacement: string, from: nat): string
    requires from <= |text|
    requires forall i :: 0 <= i < |matches| ==> from <= matches[i].start <= matches[i].end <= |text|
    requires forall i, j :: 0 <= i < j < |matches| ==> matches[i].end <= matches[j].start
  {
    if matches == [] then text[from..]
    else text[from..matches[0].start] + replacement + Substituted(text, matches[1..], replacement, matches[0].end)
  }

  /** Splicing a replacement into the last match first does not disturb the matches before it. */
  lemma {:induction false} SpliceLast(text: string, matches: seq<MatchInfo>, replacement: string, from: nat,
      tail: string)
    requires matches != [] && from <= |text| && Disjoint(matches)
    requires forall i :: 0 <= i < |matches| ==> from <= matches[i].start <= matches[i].end <= |text|
    requires var last := matches[|matches| - 1]; tail == text[..last.start] + replacement + text[last.end..]
    ensures var front := matches[..|matches| - 1];
      && (forall i :: 0 <= i < |front| ==> from <= front[i].start <= front[i].end <= |tail|)
      && Substituted(text, matches, replacement, from) == Substituted(tail, front, replacement, from)
    decreases |matches|
  {
    var front, last := matches[..|matches| - 1], matches[|matches| - 1];
    if |matches| == 1 {
      assert matches[1..] == [] && front == [];
      assert tail[from..] == text[from..last.start] + replacement + text[last.end..];
    } else {
      assert front[0] == matches[0] && matches[0].end <= last.start;
      assert matches[1..][|matches| - 2] == last && matches[1..][..|matches| - 2] == front[1..];
      SpliceLast(text, matches[1..], replacement, matches[0].end, tail);
      SamePrefix(text, tail, last.start, from, matches[0].start);
    }
  }

  lemma {:induction false} SamePrefix(a: string, b: string, n: nat, i: nat, j: nat)
    requires i <= j <= n <= |a| && n <= |b| && a[..n] == b[..n]
    ensures a[i..j] == b[i..j]
  {
    assert a[i..j] == a[..n][i..j] && b[i..j] == b[..n][i..j];
  }

  /** Splicing from the last match to the first equals substituting all of them at once. */
  method SpliceAll(text: string, matches: seq<MatchInfo>, replacement: string) returns (newText: string)
    requires Spread(text, matches)
    ensures newText == Substituted(text, matches, replacement, 0)
  {
    newText := text;
    var i := |matches|;
    assert matches[..|matches|] == matches;
    while i > 0
      invariant 0 <= i <= |matches|
      invariant forall k :: 0 <= k < i ==> matches[k].end <= |newText|
      invariant Substituted(newText, matches[..i], replacement, 0) == Substituted(text, matches, replacement, 0)
    {
      i := i - 1;
      var m := matches[i];
      var spliced := newText[..m.start] + replacement + newText[m.end..];
      assert matches[..i + 1][i] == m && matches[..i + 1][..i] == matches[..i];
      SpliceLast(newText, matches[..i + 1], replacement, 0, spliced);
      newText := spliced;
    }
  }

  /** Nothing happens without a query or without a match. */
  method ReplaceAll(fold: Fold, text: string, query: string, replacement: string) returns (newText: string)
    ensures query == [] ==> newText == text
    ensures query != [] ==>
              exists matches :: IsScan(fold, text, query, matches) && Spread(text, matches)
                                && newText == Substituted(text, matches, replacement, 0)
  {
    if query == [] {
      return text;
    }
    var found := FindMatches(fold, text, query);
    forall i | 0 <= i < |found| ensures found[i].start <= found[i].end <= |text| {
      assert IsMatch(fold, text, query, found[i]);
    }
    assert Spread(text, found);
    newText := SpliceAll(text, found, replacement);
  }

  /** Every match changes the length by the same amount. */
  lemma {:induction false} SubstitutedLength(text: string, matches: seq<MatchInfo>, replacement: string, from: nat,
      width: nat)
    requires from <= |text| && Disjoint(matches)
    requires forall i :: 0 <= i < |matches| ==> from <= matches[i].start <= matches[i].end <= |text|
    requires forall i :: 0 <= i < |matches| ==> matches[i].end == matches[i].start + width
    ensures |Substituted(text, matches, replacement, from)| == |text| - from + |matches| * (|replacement| - width)
    decreases |matches|
  {
    if matches != [] {
      SubstitutedLength(text, matches[1..], replacement, matches[0].end, width);
      var rest, gain := |matches| - 1, |replacement| - width;
      assert (rest + 1) * gain == rest * gain + gain;
    }
  }
}
