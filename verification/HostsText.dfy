/** A hosts text as lines with their ends, and the block of it that is managed. */
module HostsText {
  import opened Base
  import opened Text
  import opened Spacing

  const MANAGED_START := "# ---- mHost start ----"
  const MANAGED_END := "# ---- mHost end ----"

  // -------------------------------------------------------------------------
  // Cutting a text after every newline
  // -------------------------------------------------------------------------

  /** The lines of a text, each with its newline; the last one may have none. */
  function Chunks(s: string): seq<string> {
    if s == [] then []
    else
      var rest := Chunks(s[1..]);
      if s[0] == '\n' || rest == [] then [[s[0]]] + rest else [[s[0]] + rest[0]] + rest[1..]
  }

  function Concat(chunks: seq<string>): string {
    if chunks == [] then [] else chunks[0] + Concat(chunks[1..])
  }

  predicate IsClosed(c: string) {
    c != [] && c[|c| - 1] == '\n' && '\n' !in c[..|c| - 1]
  }

  predicate IsOpen(c: string) {
    c != [] && '\n' !in c
  }

  ghost predicate WellCut(chunks: seq<string>) {
    forall i :: 0 <= i < |chunks| ==> IsClosed(chunks[i]) || (i == |chunks| - 1 && IsOpen(chunks[i]))
  }

  ghost predicate AllClosed(chunks: seq<string>) {
    forall i :: 0 <= i < |chunks| ==> IsClosed(chunks[i])
  }

  lemma {:induction false} ConcatAppend(a: seq<string>, b: seq<string>)
    ensures Concat(a + b) == Concat(a) + Concat(b)
  {
    if a == [] {
      assert a + b == b;
    } else {
      assert (a + b)[1..] == a[1..] + b;
      ConcatAppend(a[1..], b);
    }
  }

  lemma {:induction false} OneMoreChar(c: char, chunk: string)
    requires c != '\n'
    ensures IsClosed(chunk) ==> IsClosed([c] + chunk)
    ensures IsOpen(chunk) ==> IsOpen([c] + chunk)
  {
    if chunk != [] {
      assert ([c] + chunk)[..|chunk|] == [c] + chunk[..|chunk| - 1];
    }
  }

  lemma {:induction false} ChunksAreCut(s: string)
    ensures Concat(Chunks(s)) == s && WellCut(Chunks(s))
  {
    if s != [] {
      ChunksAreCut(s[1..]);
      var rest := Chunks(s[1..]);
      assert s == [s[0]] + s[1..];
      if s[0] == '\n' || rest == [] {
        assert Chunks(s)[1..] == rest;
      } else {
        OneMoreChar(s[0], rest[0]);
        assert Chunks(s)[1..] == rest[1..] && rest == [rest[0]] + rest[1..];
      }
    }
  }

  lemma {:induction false} TextIsCut(s: string)
    ensures WellCut(Chunks(s))
  {
    ChunksAreCut(s);
  }

  lemma {:induction false} ClosedThen(c: string, rest: string)
    requires IsClosed(c)
    ensures Chunks(c + rest) == [c] + Chunks(rest)
  {
    assert (c + rest)[1..] == c[1..] + rest && (c + rest)[0] == c[0];
    if |c| == 1 {
      assert c[1..] + rest == rest && c == [c[0]];
    } else {
      assert c[1..][..|c| - 2] == c[..|c| - 1][1..];
      ClosedThen(c[1..], rest);
      assert c[0] == c[..|c| - 1][0];
      assert c == [c[0]] + c[1..];
    }
  }

  lemma {:induction false} OpenAlone(c: string)
    requires IsOpen(c)
    ensures Chunks(c) == [c]
  {
    assert c == [c[0]] + c[1..];
    if |c| > 1 {
      OpenAlone(c[1..]);
    } else {
      assert Chunks(c[1..]) == [] && c[0] in c && c == [c[0]];
    }
  }

  /** Putting a well-cut text together and cutting it again changes nothing. */
  lemma {:induction false} CutAgain(chunks: seq<string>)
    requires WellCut(chunks)
    ensures Chunks(Concat(chunks)) == chunks
  {
    if chunks != [] {
      var c := chunks[0];
      assert chunks == [c] + chunks[1..];
      if IsClosed(c) {
        CutAgain(chunks[1..]);
        ClosedThen(c, Concat(chunks[1..]));
      } else {
        assert chunks[1..] == [] && c + [] == c;
        OpenAlone(c);
      }
    }
  }

  // -------------------------------------------------------------------------
  // Lines with and without their ends
  // -------------------------------------------------------------------------

  lemma {:induction false} TrimStartSnoc(s: string, c: char)
    requires IsWhitespace(c)
    ensures TrimStart(s + [c]) == if TrimStart(s) == [] then [] else TrimStart(s) + [c]
  {
    if s != [] && IsWhitespace(s[0]) {
      assert (s + [c])[1..] == s[1..] + [c];
      TrimStartSnoc(s[1..], c);
    } else if s == [] {
      assert (s + [c])[1..] == [];
    }
  }

  lemma {:induction false} TrimSnoc(s: string, c: char)
    requires IsWhitespace(c)
    ensures Trim(s + [c]) == Trim(s)
  {
    TrimStartSnoc(s, c);
    var t := TrimStart(s);
    assert (t + [c])[..|t|] == t;
  }

  lemma {:induction false} LinesThen(l: string, rest: string)
    requires '\n' !in l
    ensures Lines(l + ['\n'] + rest) == [ChompCr(l)] + Lines(rest)
  {
    SplitAfter(l, '\n', rest);
    var pieces := Split(rest, '\n');
    assert ([l] + pieces)[1..] == pieces;
  }

  lemma {:induction false} LineOfChunk(l: string)
    ensures Trim(ChompCr(l)) == Trim(l + ['\n'])
  {
    TrimSnoc(l, '\n');
    if l != [] && l[|l| - 1] == '\r' {
      TrimSnoc(l[..|l| - 1], '\r');
      assert l == l[..|l| - 1] + ['\r'];
    }
  }

  ghost predicate SameTrimmed(a: seq<string>, b: seq<string>) {
    |a| == |b| && forall i :: 0 <= i < |a| ==> Trim(a[i]) == Trim(b[i])
  }

  /** Line by line, with or without line ends, the trimmed texts are the same. */
  lemma {:induction false} LinesAreChunks(chunks: seq<string>)
    requires WellCut(chunks)
    ensures SameTrimmed(Lines(Concat(chunks)), chunks)
  {
    if chunks != [] {
      var c, rest := chunks[0], chunks[1..];
      LinesAreChunks(rest);
      if IsClosed(c) {
        var l := c[..|c| - 1];
        assert c == l + ['\n'];
        LinesThen(l, Concat(rest));
        LineOfChunk(l);
        assert Lines(Concat(chunks)) == [ChompCr(l)] + Lines(Concat(rest));
      } else {
        assert rest == [] && c + [] == c;
        SplitNone(c, '\n');
      }
    } else {
      assert Split([], '\n') == [[]];
    }
  }

  // -------------------------------------------------------------------------
  // Markers
  // -------------------------------------------------------------------------

  datatype Mark = StartMark | EndMark | Plain

  function MarkOf(line: string): Mark {
    if Trim(line) == MANAGED_START then StartMark
    else if Trim(line) == MANAGED_END then EndMark
    else Plain
  }

  function Marks(lines: seq<string>): (r: seq<Mark>)
    ensures |r| == |lines|
  {
    if lines == [] then [] else Marks(lines[..|lines| - 1]) + [MarkOf(lines[|lines| - 1])]
  }

  lemma {:induction false} MarksAre(lines: seq<string>)
    ensures forall i :: 0 <= i < |lines| ==> Marks(lines)[i] == MarkOf(lines[i])
  {
    if lines != [] {
      MarksAre(lines[..|lines| - 1]);
    }
  }

  lemma {:induction false} MarksOne(line: string)
    ensures Marks([line]) == [MarkOf(line)]
  {
    assert [line][..0] == [];
  }

  lemma {:induction false} MarksAppend(a: seq<string>, b: seq<string>)
    ensures Marks(a + b) == Marks(a) + Marks(b)
  {
    if b == [] {
      assert a + b == a;
    } else {
      assert (a + b)[..|a + b| - 1] == a + b[..|b| - 1];
      MarksAppend(a, b[..|b| - 1]);
    }
  }

  lemma {:induction false} MarksOfParts(lines: seq<string>, k: nat)
    requires k <= |lines|
    ensures Marks(lines[..k]) == Marks(lines)[..k] && Marks(lines[k..]) == Marks(lines)[k..]
  {
    MarksAppend(lines[..k], lines[k..]);
    assert lines == lines[..k] + lines[k..];
  }

  /** Where a mark stands, in order. */
  function Positions(marks: seq<Mark>, m: Mark): seq<nat> {
    if marks == [] then []
    else
      var last := |marks| - 1;
      Positions(marks[..last], m) + if marks[last] == m then [last] else []
  }

  lemma {:induction false} PositionsAre(marks: seq<Mark>, m: Mark)
    ensures forall k: nat :: k in Positions(marks, m) <==> k < |marks| && marks[k] == m
  {
    if marks != [] {
      PositionsAre(marks[..|marks| - 1], m);
    }
  }

  lemma {:induction false} OnePosition(marks: seq<Mark>, m: Mark)
    requires |Positions(marks, m)| == 1
    ensures var k := Positions(marks, m)[0];
      k < |marks| && marks[k] == m && forall j :: 0 <= j < |marks| && j != k ==> marks[j] != m
  {
    PositionsAre(marks, m);
    var r := Positions(marks, m);
    assert r == [r[0]];
    assert r[0] in r;
    forall j | 0 <= j < |marks| && marks[j] == m ensures j == r[0] {
      assert j in r;
    }
  }

  lemma {:induction false} NoPosition(marks: seq<Mark>, m: Mark)
    requires m !in marks
    ensures Positions(marks, m) == []
  {
    if marks != [] {
      NoPosition(marks[..|marks| - 1], m);
    }
  }

  lemma {:induction false} OnlyPosition(marks: seq<Mark>, m: Mark, i: nat)
    requires i < |marks| && marks[i] == m && forall j :: 0 <= j < |marks| && j != i ==> marks[j] != m
    ensures Positions(marks, m) == [i]
  {
    var front := marks[..|marks| - 1];
    if i == |marks| - 1 {
      NoPosition(front, m);
    } else {
      OnlyPosition(front, m, i);
    }
  }

  lemma {:induction false} PositionCount(a: seq<Mark>, b: seq<Mark>, m: Mark)
    ensures |Positions(a + b, m)| == |Positions(a, m)| + |Positions(b, m)|
  {
    if b == [] {
      assert a + b == a;
    } else {
      var front := b[..|b| - 1];
      assert (a + b)[..|a + b| - 1] == a + front;
      PositionCount(a, front, m);
    }
  }

  /** The one start and the one end, in order: the lines of the managed block. */
  function LineRange(marks: seq<Mark>): (r: Option<(nat, nat)>)
    ensures r.Some? ==> r.value.0 < r.value.1 < |marks|
  {
    var s, e := Positions(marks, StartMark), Positions(marks, EndMark);
    if |s| == 1 && |e| == 1 && s[0] <= e[0] then
      OnePosition(marks, StartMark);
      OnePosition(marks, EndMark);
      Some((s[0], e[0]))
    else None
  }

  /** The line is this text with white space around it. */
  ghost predicate Spells(line: string, t: string) {
    exists left, right :: AllBlank(left) && AllBlank(right) && line == left + t + right
  }

  lemma {:induction false} SpellsIff(line: string, t: string)
    requires Trimmed(t)
    ensures Spells(line, t) <==> Trim(line) == t
  {
    if left, right :| AllBlank(left) && AllBlank(right) && line == left + t + right {
      TrimOf(left, t, right);
    }
    var left, right := TrimCuts(line);
  }

  /** A marker line is the marker with white space around it. */
  lemma {:induction false} MarkIff(line: string)
    ensures MarkOf(line) == StartMark <==> Spells(line, MANAGED_START)
    ensures MarkOf(line) == EndMark <==> Spells(line, MANAGED_END)
  {
    SpellsIff(line, MANAGED_START);
    SpellsIff(line, MANAGED_END);
    assert MANAGED_START[7] != MANAGED_END[7] || |MANAGED_START| != |MANAGED_END|;
  }

  /** A start marker, behind it an end marker, and no other marker anywhere. */
  ghost predicate Brackets(marks: seq<Mark>, i: nat, j: nat) {
    && i < j < |marks| && marks[i] == StartMark && marks[j] == EndMark
    && forall k :: 0 <= k < |marks| && k != i && k != j ==> marks[k] == Plain
  }

  /** There is a managed block exactly between such markers. */
  lemma {:induction false} BlockIff(marks: seq<Mark>, i: nat, j: nat)
    ensures LineRange(marks) == Some((i, j)) <==> Brackets(marks, i, j)
  {
    if Brackets(marks, i, j) {
      OnlyPosition(marks, StartMark, i);
      OnlyPosition(marks, EndMark, j);
    }
    if LineRange(marks) == Some((i, j)) {
      OnePosition(marks, StartMark);
      OnePosition(marks, EndMark);
    }
  }

  /** Where the k-th line starts. */
  function Offset(chunks: seq<string>, k: nat): nat
    requires k <= |chunks|
  {
    if k == 0 then 0 else Offset(chunks, k - 1) + |chunks[k - 1]|
  }

  lemma {:induction false} OffsetIsLength(chunks: seq<string>, k: nat)
    requires k <= |chunks|
    ensures Offset(chunks, k) == |Concat(chunks[..k])|
  {
    if k > 0 {
      OffsetIsLength(chunks, k - 1);
      assert chunks[..k] == chunks[..k - 1] + [chunks[k - 1]];
      ConcatAppend(chunks[..k - 1], [chunks[k - 1]]);
      assert [chunks[k - 1]][1..] == [] && chunks[k - 1] + [] == chunks[k - 1];
    }
  }

  /** The same by offsets: from the start of the one line to the end of the other. */
  function OffsetRange(chunks: seq<string>, marks: seq<Mark>): (r: Option<(nat, nat)>)
    requires |marks| == |chunks|
    ensures r.Some? ==> r.value.0 <= r.value.1 <= |Concat(chunks)|
  {
    var s, e := Positions(marks, StartMark), Positions(marks, EndMark);
    if |s| == 1 && |e| == 1 then
      OnePosition(marks, StartMark);
      OnePosition(marks, EndMark);
      var from, to := Offset(chunks, s[0]), Offset(chunks, e[0] + 1);
      OffsetWithin(chunks, e[0] + 1);
      if from <= to then Some((from, to)) else None
    else None
  }

  lemma {:induction false} OffsetWithin(chunks: seq<string>, k: nat)
    requires k <= |chunks|
    ensures Offset(chunks, k) <= |Concat(chunks)|
    ensures Concat(chunks)[..Offset(chunks, k)] == Concat(chunks[..k])
    ensures Concat(chunks)[Offset(chunks, k)..] == Concat(chunks[k..])
  {
    OffsetIsLength(chunks, k);
    assert chunks == chunks[..k] + chunks[k..];
    ConcatAppend(chunks[..k], chunks[k..]);
  }

  lemma {:induction false} OffsetsIncrease(chunks: seq<string>, i: nat, j: nat)
    requires WellCut(chunks) && i <= j <= |chunks|
    ensures Offset(chunks, i) <= Offset(chunks, j) && (i < j ==> Offset(chunks, i) < Offset(chunks, j))
  {
    if i < j {
      OffsetsIncrease(chunks, i, j - 1);
    }
  }

  /** The only end marker stands on the line before the only start marker. */
  ghost predicate EndMeetsStart(marks: seq<Mark>) {
    var s, e := Positions(marks, StartMark), Positions(marks, EndMark);
    |s| == 1 && |e| == 1 && s[0] == e[0] + 1
  }

  /** The two readers of the markers are meant to find the same block. They do, with one
      exception: an end marker on the line right before the start marker is no block by lines, but
      an empty one by offsets. */
  lemma {:induction false} ReadersAgreeIff(chunks: seq<string>, marks: seq<Mark>)
    requires WellCut(chunks) && |marks| == |chunks|
    ensures (OffsetRange(chunks, marks) == match LineRange(marks)
                                           case Some(r) => Some((Offset(chunks, r.0), Offset(chunks, r.1 + 1)))
                                           case None => None)
       <==> !EndMeetsStart(marks)
    ensures EndMeetsStart(marks) ==> LineRange(marks) == None
    ensures EndMeetsStart(marks) ==>
              var s := Positions(marks, StartMark)[0];
              s <= |chunks| && OffsetRange(chunks, marks) == Some((Offset(chunks, s), Offset(chunks, s)))
  {
    var s, e := Positions(marks, StartMark), Positions(marks, EndMark);
    if |s| == 1 && |e| == 1 {
      OnePosition(marks, StartMark);
      OnePosition(marks, EndMark);
      if s[0] <= e[0] + 1 {
        OffsetsIncrease(chunks, s[0], e[0] + 1);
      } else {
        OffsetsIncrease(chunks, e[0] + 1, s[0]);
      }
    }
  }

  lemma {:induction false} BlockByOffsets(chunks: seq<string>, marks: seq<Mark>, from: nat, to: nat)
    requires WellCut(chunks) && |marks| == |chunks| && LineRange(marks) == Some((from, to))
    ensures from < to < |chunks| && OffsetRange(chunks, marks) == Some((Offset(chunks, from), Offset(chunks, to + 1)))
  {
    ReadersAgreeIff(chunks, marks);
  }

  lemma {:induction false} BlockOfText(text: string, from: nat, to: nat)
    requires LineRange(Marks(Chunks(text))) == Some((from, to))
    ensures from < to < |Chunks(text)|
    ensures OffsetRange(Chunks(text), Marks(Chunks(text)))
         == Some((Offset(Chunks(text), from), Offset(Chunks(text), to + 1)))
  {
    TextIsCut(text);
    BlockByOffsets(Chunks(text), Marks(Chunks(text)), from, to);
  }

  lemma {:induction false} MeetingByOffsets(chunks: seq<string>, marks: seq<Mark>) returns (s: nat)
    requires WellCut(chunks) && |marks| == |chunks| && EndMeetsStart(marks)
    ensures s < |chunks| && marks[s] == StartMark && LineRange(marks) == None
    ensures OffsetRange(chunks, marks) == Some((Offset(chunks, s), Offset(chunks, s)))
  {
    ReadersAgreeIff(chunks, marks);
    OnePosition(marks, StartMark);
    s := Positions(marks, StartMark)[0];
  }

  // -------------------------------------------------------------------------
  // The loops
  // -------------------------------------------------------------------------

  lemma {:induction false} PositionsGrow(marks: seq<Mark>, k: nat, m: Mark)
    requires k < |marks|
    ensures Positions(marks[..k + 1], m) == Positions(marks[..k], m) + if marks[k] == m then [k] else []
    ensures |Positions(marks[..k + 1], m)| <= |Positions(marks, m)|
  {
    assert marks[..k + 1][..k] == marks[..k];
    assert marks == marks[..k + 1] + marks[k + 1..];
    PositionCount(marks[..k + 1], marks[k + 1..], m);
  }

  predicate Twice(marks: seq<Mark>) {
    |Positions(marks, StartMark)| > 1 || |Positions(marks, EndMark)| > 1
  }

  /** The positions of the markers, each of which may occur once. */
  method FindMarkers(marks: seq<Mark>) returns (start: Option<nat>, end: Option<nat>, malformed: bool)
    ensures malformed == Twice(marks)
    ensures !malformed ==> Positions(marks, StartMark) == if start.Some? then [start.value] else []
    ensures !malformed ==> Positions(marks, EndMark) == if end.Some? then [end.value] else []
  {
    start, end, malformed := None, None, true;
    for idx := 0 to |marks|
      invariant Positions(marks[..idx], StartMark) == if start.Some? then [start.value] else []
      invariant Positions(marks[..idx], EndMark) == if end.Some? then [end.value] else []
    {
      PositionsGrow(marks, idx, StartMark);
      PositionsGrow(marks, idx, EndMark);
      match marks[idx] {
        case StartMark =>
          if start.Some? {
            return;
          }
          start := Some(idx);
        case EndMark =>
          if end.Some? {
            return;
          }
          end := Some(idx);
        case Plain =>
      }
    }
    assert marks[..|marks|] == marks;
    malformed := false;
  }

  lemma {:induction false} LineMarks(input: string)
    ensures Marks(Lines(input)) == Marks(Chunks(input))
  {
    ChunksAreCut(input);
    LinesAreChunks(Chunks(input));
    MarksAre(Lines(input));
    MarksAre(Chunks(input));
  }

  /** The lines of the managed block, counted from zero. */
  method ExtractManagedBlock(input: string) returns (r: Option<(nat, nat)>)
    ensures r == LineRange(Marks(Chunks(input)))
  {
    var marks := Marks(Lines(input));
    LineMarks(input);
    var start, end, malformed := FindMarkers(marks);
    if !malformed && start.Some? && end.Some? && start.value <= end.value {
      return Some((start.value, end.value));
    }
    return None;
  }

  /** A chunk without the newlines and carriage returns at its end. */
  function TrimNewlines(c: string): string {
    if c != [] && (c[|c| - 1] == '\n' || c[|c| - 1] == '\r') then TrimNewlines(c[..|c| - 1]) else c
  }

  lemma {:induction false} TrimNewlinesFirst(c: string)
    ensures Trim(TrimNewlines(c)) == Trim(c)
  {
    if c != [] && (c[|c| - 1] == '\n' || c[|c| - 1] == '\r') {
      TrimNewlinesFirst(c[..|c| - 1]);
      TrimSnoc(c[..|c| - 1], c[|c| - 1]);
      assert c == c[..|c| - 1] + [c[|c| - 1]];
    }
  }

  function ChunkMarks(chunks: seq<string>): (r: seq<Mark>)
    ensures r == Marks(chunks)
  {
    var r := seq(|chunks|, i requires 0 <= i < |chunks| => MarkOf(TrimNewlines(chunks[i])));
    MarksAre(chunks);
    assert forall i :: 0 <= i < |chunks| ==> r[i] == MarkOf(chunks[i]) by {
      forall i | 0 <= i < |chunks| ensures r[i] == MarkOf(chunks[i]) {
        TrimNewlinesFirst(chunks[i]);
      }
    }
    r
  }

  lemma {:induction false} RangeOf(chunks: seq<string>, marks: seq<Mark>, i: nat, j: nat)
    requires |marks| == |chunks| && Positions(marks, StartMark) == [i] && Positions(marks, EndMark) == [j]
    ensures i < |chunks| && j < |chunks|
    ensures OffsetRange(chunks, marks)
         == if Offset(chunks, i) <= Offset(chunks, j + 1)
            then Some((Offset(chunks, i), Offset(chunks, j + 1)))
            else None
  {
    OnePosition(marks, StartMark);
    OnePosition(marks, EndMark);
  }

  lemma {:induction false} NoRange(chunks: seq<string>, marks: seq<Mark>)
    requires |marks| == |chunks|
    requires |Positions(marks, StartMark)| != 1 || |Positions(marks, EndMark)| != 1
    ensures OffsetRange(chunks, marks) == None
  {
  }

  method RangeBetween(chunks: seq<string>, ghost marks: seq<Mark>, i: nat, j: nat) returns (r: Option<(nat, nat)>)
    requires |marks| == |chunks| && Positions(marks, StartMark) == [i] && Positions(marks, EndMark) == [j]
    ensures r == OffsetRange(chunks, marks)
  {
    RangeOf(chunks, marks, i, j);
    var from := OffsetOf(chunks, i);
    var to := OffsetOf(chunks, j + 1);
    r := if from <= to then Some((from, to)) else None;
  }

  /** The offsets of the managed block, markers included. */
  method ExtractManagedBlockBytes(input: string) returns (r: Option<(nat, nat)>)
    ensures r == OffsetRange(Chunks(input), Marks(Chunks(input)))
  {
    var chunks := Chunks(input);
    var marks := ChunkMarks(chunks);
    var start, end, malformed := FindMarkers(marks);
    if malformed || start.None? || end.None? {
      NoRange(chunks, marks);
      return None;
    }
    r := RangeBetween(chunks, marks, start.value, end.value);
  }

  method OffsetOf(chunks: seq<string>, k: nat) returns (pos: nat)
    requires k <= |chunks|
    ensures pos == Offset(chunks, k)
  {
    pos := 0;
    for i := 0 to k
      invariant pos == Offset(chunks, i)
    {
      pos := pos + |chunks[i]|;
    }
  }

  /** The text of the lines from `i` to before `j`. */
  method Interior(input: string, i: nat, j: nat) returns (interior: string)
    requires i <= j <= |Chunks(input)|
    ensures interior == Concat(Chunks(input)[i..j])
  {
    var chunks := Chunks(input);
    ChunksAreCut(input);
    var begin := OffsetOf(chunks, i);
    var end := OffsetOf(chunks, j);
    BetweenOffsets(chunks, i, j);
    interior := input[begin..end];
  }

  lemma {:induction false} BetweenOffsets(chunks: seq<string>, i: nat, j: nat)
    requires i <= j <= |chunks|
    ensures Offset(chunks, i) <= Offset(chunks, j) <= |Concat(chunks)|
    ensures Concat(chunks)[Offset(chunks, i)..Offset(chunks, j)] == Concat(chunks[i..j])
  {
    OffsetWithin(chunks, j);
    OffsetIsLength(chunks, i);
    OffsetIsLength(chunks, j);
    OffsetIsLength(chunks[..j], i);
    OffsetWithin(chunks[..j], i);
    assert chunks[..j][..i] == chunks[..i] && chunks[..j][i..] == chunks[i..j];
    var s := Concat(chunks);
    assert s[..Offset(chunks, j)][Offset(chunks, i)..] == s[Offset(chunks, i)..Offset(chunks, j)];
  }
}
