/** The search marks of the highlighter: every line is cut into plain and marked segments. */
module Segments {
  import opened Base
  import opened Text
  import opened Search

  /** A stretch of a line, and the match it belongs to, if any. */
  datatype Segment = Segment(text: string, owner: Option<nat>)

  function TextOf(segments: seq<Segment>): string {
    if segments == [] then []
    else TextOf(segments[..|segments| - 1]) + segments[|segments| - 1].text
  }

  /** The match each character of the segments belongs to. */
  function OwnersOf(segments: seq<Segment>): (r: seq<Option<nat>>)
    ensures |r| == |TextOf(segments)|
  {
    if segments == [] then []
    else
      var last := segments[|segments| - 1];
      OwnersOf(segments[..|segments| - 1]) + seq(|last.text|, _ => last.owner)
  }

  ghost predicate Covers(m: MatchInfo, p: int) {
    m.start <= p < m.end
  }

  /** `owner` is the match that covers text position `p`, or nothing if none does. */
  ghost predicate Owned(matches: seq<MatchInfo>, p: int, owner: Option<nat>) {
    match owner
    case Some(i) => i < |matches| && Covers(matches[i], p)
    case None => forall i :: 0 <= i < |matches| ==> !Covers(matches[i], p)
  }

  ghost predicate AllOwned(matches: seq<MatchInfo>, from: nat, to: nat, owner: Option<nat>) {
    forall p :: from <= p < to ==> Owned(matches, p, owner)
  }

  /** The segments spell the first `done` characters of the line that starts at `lineStart`, each
      with the match that covers it. */
  ghost predicate Marked(line: string, lineStart: nat, matches: seq<MatchInfo>, done: nat, segments: seq<Segment>) {
    && done <= |line| && TextOf(segments) == line[..done]
    && forall q :: 0 <= q < done ==> OwnedAt(matches, lineStart, OwnersOf(segments), q)
  }

  ghost predicate OwnedAt(matches: seq<MatchInfo>, lineStart: nat, owners: seq<Option<nat>>, q: int) {
    0 <= q < |owners| && Owned(matches, lineStart + q, owners[q])
  }

  lemma {:induction false} AddSegment(line: string, lineStart: nat, matches: seq<MatchInfo>, segments: seq<Segment>,
      from: nat, to: nat, owner: Option<nat>)
    requires Marked(line, lineStart, matches, from, segments) && from <= to <= |line|
    requires AllOwned(matches, lineStart + from, lineStart + to, owner)
    ensures Marked(line, lineStart, matches, to, segments + [Segment(line[from..to], owner)])
  {
    var last := Segment(line[from..to], owner);
    Snoc(segments, last);
    assert line[..to] == line[..from] + line[from..to];
    forall q | 0 <= q < to ensures OwnedAt(matches, lineStart, OwnersOf(segments + [last]), q) {
      if q < from {
        assert OwnedAt(matches, lineStart, OwnersOf(segments), q);
      } else {
        assert Owned(matches, lineStart + q, owner);
      }
    }
  }

  lemma {:induction false} Snoc(segments: seq<Segment>, last: Segment)
    ensures TextOf(segments + [last]) == TextOf(segments) + last.text
    ensures OwnersOf(segments + [last]) == OwnersOf(segments) + seq(|last.text|, _ => last.owner)
  {
    assert (segments + [last])[..|segments|] == segments;
  }

  predicate Touches(m: MatchInfo, lineStart: nat, lineEnd: nat) {
    m.start < lineEnd && m.end > lineStart
  }

  /** The indices of the matches that touch the line. */
  function LineMatches(matches: seq<MatchInfo>, lineStart: nat, lineEnd: nat): (r: seq<nat>)
    ensures AreHits(r, matches, lineStart, lineEnd)
  {
    if matches == [] then []
    else
      var last := |matches| - 1;
      LineMatches(matches[..last], lineStart, lineEnd)
          + if Touches(matches[last], lineStart, lineEnd) then [last] else []
  }

  ghost predicate AreHits(hits: seq<nat>, matches: seq<MatchInfo>, lineStart: nat, lineEnd: nat) {
    && (forall a :: 0 <= a < |hits| ==> hits[a] < |matches| && Touches(matches[hits[a]], lineStart, lineEnd))
    && (forall a, b :: 0 <= a < b < |hits| ==> hits[a] < hits[b])
    && (forall i: nat :: i < |matches| && Touches(matches[i], lineStart, lineEnd) ==> i in hits)
  }

  function Max(a: int, b: int): int { if a < b then b else a }

  function Min(a: int, b: int): int { if a < b then a else b }

  /** Between the matches handled and the next one nothing is covered. */
  lemma {:induction false} GapIsPlain(matches: seq<MatchInfo>, hits: seq<nat>, lineStart: nat, lineEnd: nat, k: nat,
      from: nat, to: nat)
    requires Disjoint(matches) && AreHits(hits, matches, lineStart, lineEnd) && k <= |hits|
    requires forall i :: 0 <= i < |matches| ==> matches[i].start < matches[i].end
    requires lineStart <= from <= to <= lineEnd
    requires forall a :: 0 <= a < k ==> matches[hits[a]].end <= from
    requires k < |hits| ==> to <= matches[hits[k]].start
    ensures AllOwned(matches, from, to, None)
  {
    forall i: nat | i < |matches| ensures matches[i].end <= from || to <= matches[i].start {
      if Touches(matches[i], lineStart, lineEnd) {
        var a :| 0 <= a < |hits| && hits[a] == i;
        if a > k {
          assert matches[hits[k]].end <= matches[hits[a]].start;
        }
      }
    }
  }

  /** Concatenating the segments of a line gives the line back, with marks exactly where a match
      covers it. */
  method SegmentLine(line: string, lineStart: nat, matches: seq<MatchInfo>) returns (segments: seq<Segment>)
    requires Disjoint(matches) && forall i :: 0 <= i < |matches| ==> matches[i].start < matches[i].end
    ensures Marked(line, lineStart, matches, |line|, segments)
  {
    var lineEnd := lineStart + |line|;
    var hits := LineMatches(matches, lineStart, lineEnd);
    assert Marked(line, lineStart, matches, 0, []);
    if hits == [] {
      GapIsPlain(matches, hits, lineStart, lineEnd, 0, lineStart, lineEnd);
      AddSegment(line, lineStart, matches, [], 0, |line|, None);
      assert line[0..|line|] == line;
      return [Segment(line, None)];
    }
    segments := [];
    var currentPos: nat := 0;
    for k := 0 to |hits|
      invariant Handled(line, lineStart, matches, hits, k, currentPos, segments)
    {
      currentPos, segments := HandleMatch(line, lineStart, matches, hits, k, currentPos, segments);
    }
    if currentPos < |line| {
      GapIsPlain(matches, hits, lineStart, lineEnd, |hits|, lineStart + currentPos, lineEnd);
      AddSegment(line, lineStart, matches, segments, currentPos, |line|, None);
      segments := segments + [Segment(line[currentPos..], None)];
    }
  }

  /** The first `k` matches of the line are behind `currentPos`, the next one is not. */
  ghost predicate Handled(line: string, lineStart: nat, matches: seq<MatchInfo>, hits: seq<nat>, k: nat,
      currentPos: nat,
                          segments: seq<Segment>)
    requires k <= |hits| && forall a :: 0 <= a < |hits| ==> hits[a] < |matches|
  {
    && currentPos <= |line| && Marked(line, lineStart, matches, currentPos, segments)
    && (currentPos < |line| ==> forall a :: 0 <= a < k ==> matches[hits[a]].end <= lineStart + currentPos)
    && (k < |hits| && currentPos > 0 ==> lineStart + currentPos <= matches[hits[k]].start)
  }

  method HandleMatch(line: string, lineStart: nat, matches: seq<MatchInfo>, hits: seq<nat>, k: nat, currentPos0: nat,
                     segments0: seq<Segment>)
    returns (currentPos: nat, segments: seq<Segment>)
    requires Disjoint(matches) && forall i :: 0 <= i < |matches| ==> matches[i].start < matches[i].end
    requires AreHits(hits, matches, lineStart, lineStart + |line|) && k < |hits|
    requires Handled(line, lineStart, matches, hits, k, currentPos0, segments0)
    ensures Handled(line, lineStart, matches, hits, k + 1, currentPos, segments)
  {
    var m := matches[hits[k]];
    var from, to := Max(0, m.start - lineStart), Min(|line|, m.end - lineStart);
    if from > currentPos0 {
      GapIsPlain(matches, hits, lineStart, lineStart + |line|, k, lineStart + currentPos0, lineStart + from);
    }
    segments := PlaceMatch(line, lineStart, matches, hits[k], currentPos0, from, to, segments0);
    currentPos := Max(currentPos0, to);
    if k + 1 < |hits| {
      assert m.end <= matches[hits[k + 1]].start;
    }
  }

  /** The gap before a match, if any, then the match, if any of it lies on the line. */
  method PlaceMatch(line: string, lineStart: nat, ghost matches: seq<MatchInfo>, i: nat, currentPos: nat, from: nat,
      to: int,
                    segments0: seq<Segment>)
    returns (segments: seq<Segment>)
    requires currentPos <= |line| && Marked(line, lineStart, matches, currentPos, segments0)
    requires from > currentPos ==> from <= |line| && AllOwned(matches, lineStart + currentPos, lineStart + from, None)
    requires from <= currentPos ==> from == currentPos
    requires to > from ==> to <= |line| && AllOwned(matches, lineStart + from, lineStart + to, Some(i))
    requires from <= Max(currentPos, to)
    ensures Marked(line, lineStart, matches, Max(currentPos, to), segments)
  {
    segments := segments0;
    if from > currentPos {
      AddSegment(line, lineStart, matches, segments, currentPos, from, None);
      segments := segments + [Segment(line[currentPos..from], None)];
    }
    if to > from {
      AddSegment(line, lineStart, matches, segments, from, to, Some(i));
      segments := segments + [Segment(line[from..to], Some(i))];
    }
  }

  // -------------------------------------------------------------------------
  // All lines
  // -------------------------------------------------------------------------

  /** Where each line starts in the text. */
  function LineStart(lines: seq<string>, k: nat): nat
    requires k <= |lines|
  {
    if k == 0 then 0 else LineStart(lines, k - 1) + |lines[k - 1]| + 1
  }

  /** Line k is found in the text at its start. */
  lemma {:induction false} LineIsThere(text: string, k: nat)
    requires k < |Split(text, '\n')|
    ensures LineStart(Split(text, '\n'), k) + |Split(text, '\n')[k]| <= |text|
    ensures text[LineStart(Split(text, '\n'), k)..][..|Split(text, '\n')[k]|] == Split(text, '\n')[k]
  {
    var lines := Split(text, '\n');
    JoinOfSplit(text, '\n');
    JoinHasPart(lines, k);
  }

  lemma {:induction false} JoinHasPart(lines: seq<string>, k: nat)
    requires k < |lines|
    ensures LineStart(lines, k) + |lines[k]| <= |Join(lines, '\n')|
    ensures Join(lines, '\n')[LineStart(lines, k)..LineStart(lines, k) + |lines[k]|] == lines[k]
  {
    if k > 0 {
      JoinHasPart(lines[1..], k - 1);
      StartOfRest(lines, k);
      var rest, n := Join(lines[1..], '\n'), |lines[0]| + 1;
      assert Join(lines, '\n') == lines[0] + ['\n'] + rest;
      var s := LineStart(lines[1..], k - 1);
      SliceAfter(lines[0] + ['\n'], rest, s, s + |lines[k]|);
    } else if |lines| > 1 {
      assert Join(lines, '\n')[..|lines[0]|] == lines[0];
    }
  }

  lemma {:induction false} SliceAfter(a: string, b: string, i: nat, j: nat)
    requires i <= j <= |b|
    ensures (a + b)[|a| + i..|a| + j] == b[i..j]
  {
  }

  lemma {:induction false} StartOfRest(lines: seq<string>, k: nat)
    requires 0 < k <= |lines|
    ensures LineStart(lines, k) == |lines[0]| + 1 + LineStart(lines[1..], k - 1)
  {
    if k > 1 {
      StartOfRest(lines, k - 1);
    }
  }

  ghost predicate LineMarked(lines: seq<string>, k: nat, matches: seq<MatchInfo>, segments: seq<Segment>) {
    k < |lines| && Marked(lines[k], LineStart(lines, k), matches, |lines[k]|, segments)
  }

  /** The segments of every line of a searched text. */
  method SegmentText(fold: Fold, text: string, query: string, matches: seq<MatchInfo>) returns (all: seq<seq<Segment>>)
    requires query != [] && IsScan(fold, text, query, matches)
    ensures |all| == |Split(text, '\n')|
    ensures forall k :: 0 <= k < |all| ==> LineMarked(Split(text, '\n'), k, matches, all[k])
  {
    forall i | 0 <= i < |matches| ensures matches[i].start < matches[i].end {
      assert IsMatch(fold, text, query, matches[i]);
    }
    var lines := Split(text, '\n');
    all := [];
    var offset := 0;
    for k := 0 to |lines|
      invariant |all| == k && offset == LineStart(lines, k)
      invariant forall j :: 0 <= j < k ==> LineMarked(lines, j, matches, all[j])
    {
      var segments := SegmentLine(lines[k], offset, matches);
      all := all + [segments];
      offset := offset + |lines[k]| + 1;
    }
  }
}
