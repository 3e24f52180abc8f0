/** The hosts text that applying a plan writes, and what the next plan reads back from it. */
module HostsFile {
  import opened Base
  import opened Sorting
  import opened Text
  import opened Spacing
  import opened Blocklist
  import opened CacheReload
  import opened Profiles
  import opened Merge
  import opened Plan
  import opened HostsText

  /** How the standard library prints and parses addresses. */
  datatype HostsEnv = HostsEnv(formatIp: IpAddr -> string, parseIp: string -> Option<IpAddr>)

  /** A printed address is one word without a comment sign, and is parsed as the same address. */
  ghost predicate PrintsIps(h: HostsEnv) {
    forall ip :: PrintsIp(h, ip)
  }

  ghost predicate PrintsIp(h: HostsEnv, ip: IpAddr) {
    var s := h.formatIp(ip);
    s != [] && NoBlanks(s) && '#' !in s && h.parseIp(s) == Some(ip)
  }

  // -------------------------------------------------------------------------
  // Reading the managed block
  // -------------------------------------------------------------------------

  function Mapped(ip: string, domains: seq<string>): (r: seq<string>)
    ensures |r| == |domains| && forall i :: 0 <= i < |r| ==> r[i] == ip + " " + domains[i]
  {
    seq(|domains|, i requires 0 <= i < |domains| => ip + " " + domains[i])
  }

  /** What a line of the block says: one line per domain, a comment as it is, nothing if the line
      is blank or wrong. */
  function ReadLine(h: HostsEnv, line: string): seq<string> {
    var trimmed := Trim(line);
    if trimmed == [] then []
    else if trimmed[0] == '#' then [trimmed]
    else
      var tokens := Words(Trim(Split(trimmed, '#')[0]));
      if tokens == [] then []
      else match h.parseIp(tokens[0])
           case None => []
           case Some(ip) =>
             if |tokens| < 2 || exists d :: d in tokens[1..] && !IsValidDomain(d) then []
             else Mapped(h.formatIp(ip), tokens[1..])
  }

  function Reads(h: HostsEnv): string -> seq<string> {
    (line: string) => ReadLine(h, line)
  }

  /** What the lines say one after the other. */
  function AllOf(read: string -> seq<string>, lines: seq<string>): seq<string> {
    if lines == [] then [] else AllOf(read, lines[..|lines| - 1]) + read(lines[|lines| - 1])
  }

  /** The lines a hosts text has in its managed block. */
  function ManagedLines(h: HostsEnv, text: string): seq<string> {
    var chunks := Chunks(text);
    match LineRange(Marks(chunks))
    case None => []
    case Some(r) => ReadInner(h, chunks[r.0 + 1..r.1])
  }

  function ReadInner(h: HostsEnv, inner: seq<string>): seq<string> {
    AllOf(Reads(h), Lines(Concat(inner)))
  }

  method ReadAll(read: string -> seq<string>, source: seq<string>) returns (lines: seq<string>)
    ensures lines == AllOf(read, source)
  {
    lines := [];
    for k := 0 to |source|
      invariant lines == AllOf(read, source[..k])
    {
      assert source[..k + 1][..k] == source[..k];
      lines := lines + read(source[k]);
    }
    assert source[..|source|] == source;
  }

  method ExtractExistingLines(h: HostsEnv, current: string) returns (lines: seq<string>)
    ensures lines == ManagedLines(h, current)
  {
    var range := ExtractManagedBlock(current);
    if range == None {
      return [];
    }
    var (from, to) := range.value;
    var interior := Interior(current, from + 1, to);
    lines := ReadAll(Reads(h), Lines(interior));
    ManagedOf(h, current, from, to);
  }

  lemma {:induction false} ManagedOf(h: HostsEnv, text: string, from: nat, to: nat)
    requires LineRange(Marks(Chunks(text))) == Some((from, to))
    ensures ManagedLines(h, text) == ReadInner(h, Chunks(text)[from + 1..to])
  {
  }

  // -------------------------------------------------------------------------
  // Writing it
  // -------------------------------------------------------------------------

  function Block(formatIp: IpAddr -> string, rules: seq<ResolvedRule>): string {
    if rules == [] then [] else MANAGED_START + "\n" + TargetText(formatIp, rules) + MANAGED_END + "\n"
  }

  function WithFinalNewline(text: string): string {
    if text != [] && text[|text| - 1] != '\n' then text + "\n" else text
  }

  /** The managed block is replaced where it is, or appended. */
  function Replaced(current: string, block: string): string {
    ChunksAreCut(current);
    match OffsetRange(Chunks(current), Marks(Chunks(current)))
    case Some(r) => current[..r.0] + block + current[r.1..]
    case None => WithFinalNewline(current) + block
  }

  function Build(formatIp: IpAddr -> string, current: string, rules: seq<ResolvedRule>): string {
    Replaced(current, Block(formatIp, rules))
  }

  function EnvOf(h: HostsEnv): PlanEnv {
    PlanEnv(h.formatIp, text => ManagedLines(h, text), (text, rules) => Build(h.formatIp, text, rules))
  }

  // -------------------------------------------------------------------------
  // The written text, line by line
  // -------------------------------------------------------------------------

  function RuleLine(formatIp: IpAddr -> string, r: ResolvedRule): string {
    formatIp(r.ip) + " " + r.domain
  }

  function RuleLines(formatIp: IpAddr -> string, rules: seq<ResolvedRule>): (r: seq<string>)
    ensures |r| == |rules| && forall i :: 0 <= i < |r| ==> r[i] == RuleLine(formatIp, rules[i])
  {
    seq(|rules|, i requires 0 <= i < |rules| => RuleLine(formatIp, rules[i]))
  }

  function WithEnds(lines: seq<string>): (r: seq<string>)
    ensures |r| == |lines| && forall i :: 0 <= i < |r| ==> r[i] == lines[i] + ['\n']
  {
    seq(|lines|, i requires 0 <= i < |lines| => lines[i] + ['\n'])
  }

  function BlockChunks(formatIp: IpAddr -> string, rules: seq<ResolvedRule>): seq<string> {
    if rules == [] then []
    else [MANAGED_START + ['\n']] + WithEnds(RuleLines(formatIp, rules)) + [MANAGED_END + ['\n']]
  }

  lemma {:induction false} ConcatOne(c: string)
    ensures Concat([c]) == c
  {
    assert [c][1..] == [] && c + [] == c;
  }

  lemma {:induction false} TargetIsRuleLines(formatIp: IpAddr -> string, rules: seq<ResolvedRule>)
    ensures TargetText(formatIp, rules) == Concat(WithEnds(RuleLines(formatIp, rules)))
  {
    if rules != [] {
      var front, last := rules[..|rules| - 1], rules[|rules| - 1];
      TargetIsRuleLines(formatIp, front);
      var before, line := WithEnds(RuleLines(formatIp, front)), RuleLine(formatIp, last) + ['\n'];
      assert WithEnds(RuleLines(formatIp, rules)) == before + [line];
      ConcatAppend(before, [line]);
      ConcatOne(line);
    }
  }

  lemma {:induction false} BlockIsChunks(formatIp: IpAddr -> string, rules: seq<ResolvedRule>)
    ensures Block(formatIp, rules) == Concat(BlockChunks(formatIp, rules))
  {
    if rules != [] {
      var first, last := [MANAGED_START + ['\n']], [MANAGED_END + ['\n']];
      var middle := WithEnds(RuleLines(formatIp, rules));
      TargetIsRuleLines(formatIp, rules);
      ConcatAppend(first + middle, last);
      ConcatAppend(first, middle);
      ConcatOne(first[0]);
      ConcatOne(last[0]);
      assert Block(formatIp, rules) == first[0] + TargetText(formatIp, rules) + last[0];
    }
  }

  /** Every domain is one word, as the parsers that rules come from leave it. */
  ghost predicate OneWord(rules: seq<ResolvedRule>) {
    forall r :: r in rules ==> NoBlanks(r.domain)
  }

  lemma {:induction false} TrimKeepsFirst(s: string)
    requires s != [] && !IsWhitespace(s[0])
    ensures Trim(s) != [] && Trim(s)[0] == s[0]
  {
    if IsWhitespace(s[|s| - 1]) {
      TrimKeepsFirst(s[..|s| - 1]);
    }
  }

  lemma {:induction false} RuleLineIsPlain(h: HostsEnv, r: ResolvedRule)
    requires PrintsIps(h) && NoBlanks(r.domain)
    ensures var line := RuleLine(h.formatIp, r);
      '\n' !in line && ChompCr(line) == line && IsClosed(line + ['\n']) && MarkOf(line + ['\n']) == Plain
  {
    var line, ip := RuleLine(h.formatIp, r), h.formatIp(r.ip);
    assert PrintsIp(h, r.ip);
    assert ip[0] in ip && line[0] == ip[0];
    if r.domain != [] {
      assert line[|line| - 1] == r.domain[|r.domain| - 1] && r.domain[|r.domain| - 1] in r.domain;
    }
    assert (line + ['\n'])[..|line|] == line;
    TrimKeepsFirst(line + ['\n']);
    assert (line + ['\n'])[0] == ip[0] && MANAGED_START[0] == '#' && MANAGED_END[0] == '#';
  }

  lemma {:induction false} MarkerLines()
    ensures IsClosed(MANAGED_START + ['\n']) && MarkOf(MANAGED_START + ['\n']) == StartMark
    ensures IsClosed(MANAGED_END + ['\n']) && MarkOf(MANAGED_END + ['\n']) == EndMark
  {
    TrimSnoc(MANAGED_START, '\n');
    TrimSnoc(MANAGED_END, '\n');
    TrimKeepsNonBlank(MANAGED_START);
    TrimKeepsNonBlank(MANAGED_END);
    assert (MANAGED_START + ['\n'])[..|MANAGED_START|] == MANAGED_START;
    assert (MANAGED_END + ['\n'])[..|MANAGED_END|] == MANAGED_END;
  }

  function PlainMarks(n: nat): (r: seq<Mark>)
    ensures |r| == n && forall i :: 0 <= i < n ==> r[i] == Plain
  {
    seq(n, _ => Plain)
  }

  lemma {:induction false} RuleMarks(h: HostsEnv, rules: seq<ResolvedRule>)
    requires PrintsIps(h) && OneWord(rules)
    ensures AllClosed(WithEnds(RuleLines(h.formatIp, rules)))
    ensures Marks(WithEnds(RuleLines(h.formatIp, rules))) == PlainMarks(|rules|)
  {
    var chunks := WithEnds(RuleLines(h.formatIp, rules));
    forall i | 0 <= i < |rules| ensures IsClosed(chunks[i]) && MarkOf(chunks[i]) == Plain {
      RuleLineIsPlain(h, rules[i]);
    }
    MarksAre(chunks);
  }

  lemma {:induction false} CutAppend(a: seq<string>, b: seq<string>)
    requires AllClosed(a) && WellCut(b)
    ensures WellCut(a + b) && (AllClosed(b) ==> AllClosed(a + b))
  {
  }

  lemma {:induction false} BlockMarks(h: HostsEnv, rules: seq<ResolvedRule>)
    requires PrintsIps(h) && OneWord(rules) && rules != []
    ensures AllClosed(BlockChunks(h.formatIp, rules))
    ensures Marks(BlockChunks(h.formatIp, rules)) == [StartMark] + PlainMarks(|rules|) + [EndMark]
  {
    var first, last := [MANAGED_START + ['\n']], [MANAGED_END + ['\n']];
    var middle := WithEnds(RuleLines(h.formatIp, rules));
    RuleMarks(h, rules);
    OneMarker();
    CutAppend(first, middle);
    CutAppend(first + middle, last);
    MarksAppend(first, middle);
    MarksAppend(first + middle, last);
  }

  lemma {:induction false} OneMarker()
    ensures AllClosed([MANAGED_START + ['\n']]) && Marks([MANAGED_START + ['\n']]) == [StartMark]
    ensures AllClosed([MANAGED_END + ['\n']]) && Marks([MANAGED_END + ['\n']]) == [EndMark]
  {
    MarkerLines();
    MarksOne(MANAGED_START + ['\n']);
    MarksOne(MANAGED_END + ['\n']);
  }

  // -------------------------------------------------------------------------
  // Where the block ends up
  // -------------------------------------------------------------------------

  /** The same lines, the last one closed too. */
  function Closing(chunks: seq<string>): seq<string> {
    if chunks == [] || IsClosed(chunks[|chunks| - 1]) then chunks
    else chunks[..|chunks| - 1] + [chunks[|chunks| - 1] + ['\n']]
  }

  lemma {:induction false} CloseOne(last: string)
    requires IsOpen(last)
    ensures IsClosed(last + ['\n']) && MarkOf(last + ['\n']) == MarkOf(last) && last[|last| - 1] != '\n'
  {
    TrimSnoc(last, '\n');
    assert (last + ['\n'])[..|last|] == last;
    assert last[|last| - 1] in last;
  }

  lemma {:induction false} ClosingMarks(chunks: seq<string>)
    requires WellCut(chunks)
    ensures AllClosed(Closing(chunks)) && Marks(Closing(chunks)) == Marks(chunks)
  {
    if chunks != [] && !IsClosed(chunks[|chunks| - 1]) {
      var front, last := chunks[..|chunks| - 1], chunks[|chunks| - 1];
      assert chunks == front + [last] && AllClosed(front);
      CloseOne(last);
      MarksAppend(front, [last]);
      MarksAppend(front, [last + ['\n']]);
      MarksOne(last);
      MarksOne(last + ['\n']);
    }
  }

  lemma {:induction false} ClosingText(chunks: seq<string>)
    requires WellCut(chunks)
    ensures Concat(Closing(chunks)) == WithFinalNewline(Concat(chunks))
  {
    if chunks != [] {
      var front, last := chunks[..|chunks| - 1], chunks[|chunks| - 1];
      assert chunks == front + [last];
      ConcatAppend(front, [last]);
      ConcatOne(last);
      if !IsClosed(last) {
        CloseOne(last);
        ConcatAppend(front, [last + ['\n']]);
        ConcatOne(last + ['\n']);
      }
    }
  }

  /** Putting closed lines in place of others: cut again, the text has just these lines. */
  lemma {:induction false} PutChunks(chunks: seq<string>, i: nat, j: nat, block: seq<string>)
    requires WellCut(chunks) && AllClosed(block) && i < |chunks| && i <= j <= |chunks|
    ensures Offset(chunks, i) <= |Concat(chunks)| && Offset(chunks, j) <= |Concat(chunks)|
    ensures Chunks(Concat(chunks)[..Offset(chunks, i)] + Concat(block) + Concat(chunks)[Offset(chunks, j)..])
         == chunks[..i] + block + chunks[j..]
  {
    OffsetWithin(chunks, i);
    OffsetWithin(chunks, j);
    var put := chunks[..i] + block + chunks[j..];
    ConcatAppend(chunks[..i] + block, chunks[j..]);
    ConcatAppend(chunks[..i], block);
    CutAppend(chunks[..i], block);
    CutAppend(chunks[..i] + block, chunks[j..]);
    CutAgain(put);
  }

  /** With a block to replace, the new lines stand in place of the old ones. */
  lemma {:induction false} BuiltInPlace(text: string, block: seq<string>, i: nat, j: nat)
    requires AllClosed(block) && i < |Chunks(text)| && i <= j <= |Chunks(text)|
    requires OffsetRange(Chunks(text), Marks(Chunks(text))) == Some((Offset(Chunks(text), i), Offset(Chunks(text), j)))
    ensures Chunks(Replaced(text, Concat(block))) == Chunks(text)[..i] + block + Chunks(text)[j..]
  {
    ChunksAreCut(text);
    PutChunks(Chunks(text), i, j, block);
  }

  /** With none, they stand at the end. */
  lemma {:induction false} BuiltAtEnd(text: string, block: seq<string>)
    requires AllClosed(block) && OffsetRange(Chunks(text), Marks(Chunks(text))) == None
    ensures Chunks(Replaced(text, Concat(block))) == Closing(Chunks(text)) + block
  {
    var before := Closing(Chunks(text));
    ChunksAreCut(text);
    ClosingText(Chunks(text));
    ClosingMarks(Chunks(text));
    ConcatAppend(before, block);
    CutAppend(before, block);
    CutAgain(before + block);
  }

  // -------------------------------------------------------------------------
  // Markers around a block
  // -------------------------------------------------------------------------

  /** No marker at all, or one start and after it one end. */
  predicate WellMarked(marks: seq<Mark>) {
    LineRange(marks).Some? || (StartMark !in marks && EndMark !in marks)
  }

  ghost predicate AllPlain(marks: seq<Mark>) {
    forall k :: 0 <= k < |marks| ==> marks[k] == Plain
  }

  ghost predicate IsBlock(marks: seq<Mark>, n: nat) {
    marks == [StartMark] + PlainMarks(n) + [EndMark]
  }

  lemma {:induction false} PlainAround(a: seq<Mark>, block: seq<Mark>, n: nat, b: seq<Mark>)
    requires AllPlain(a) && AllPlain(b) && IsBlock(block, n)
    ensures LineRange(a + block + b) == Some((|a|, |a| + n + 1))
  {
    var marks := a + block + b;
    forall k | 0 <= k < |marks| && k != |a| && k != |a| + n + 1 ensures marks[k] == Plain {
      if k < |a| {
        assert marks[k] == a[k];
      } else if k < |a| + n + 2 {
        assert marks[k] == block[k - |a|] == PlainMarks(n)[k - |a| - 1];
      } else {
        assert marks[k] == b[k - |a| - n - 2];
      }
    }
    BlockIff(marks, |a|, |a| + n + 1);
  }

  lemma {:induction false} AroundIsPlain(marks: seq<Mark>)
    requires LineRange(marks).Some?
    ensures var r := LineRange(marks).value; AllPlain(marks[..r.0]) && AllPlain(marks[r.1 + 1..])
  {
    OnePosition(marks, StartMark);
    OnePosition(marks, EndMark);
  }

  lemma {:induction false} SomePosition(marks: seq<Mark>, m: Mark)
    requires m in marks
    ensures |Positions(marks, m)| >= 1
  {
    PositionsAre(marks, m);
    var k :| 0 <= k < |marks| && marks[k] == m;
    assert k in Positions(marks, m);
  }

  lemma {:induction false} MarksAdd(a: seq<Mark>, block: seq<Mark>, b: seq<Mark>, m: Mark)
    ensures |Positions(a + block + b, m)| == |Positions(a + b, m)| + |Positions(block, m)|
  {
    PositionCount(a, block, m);
    PositionCount(a + block, b, m);
    PositionCount(a, b, m);
  }

  /** Between good markers the new block is found again. */
  lemma {:induction false} BlockIsFound(a: seq<string>, block: seq<string>, n: nat, b: seq<string>)
    requires AllPlain(Marks(a)) && AllPlain(Marks(b)) && IsBlock(Marks(block), n)
    ensures LineRange(Marks(a + block + b)) == Some((|a|, |a| + n + 1))
  {
    MarksAppend(a, block);
    MarksAppend(a + block, b);
    PlainAround(Marks(a), Marks(block), n, Marks(b));
  }

  /** Between bad ones no block is found, now or later: a marker is there twice. */
  lemma {:induction false} MarkersPileUp(a: seq<string>, block: seq<string>, n: nat, b: seq<string>)
    requires IsBlock(Marks(block), n) && !WellMarked(Marks(a) + Marks(b))
    ensures Twice(Marks(a + block + b))
  {
    var marks := Marks(a) + Marks(b);
    var m := if StartMark in marks then StartMark else EndMark;
    MarksAppend(a, block);
    MarksAppend(a + block, b);
    assert Marks(block)[0] == StartMark && Marks(block)[n + 1] == EndMark;
    SomePosition(Marks(block), m);
    SomePosition(marks, m);
    MarksAdd(Marks(a), Marks(block), Marks(b), m);
  }

  lemma {:induction false} NoBlockLeft(a: seq<string>, b: seq<string>)
    requires AllPlain(Marks(a)) && AllPlain(Marks(b))
    ensures AllPlain(Marks(a + b)) && LineRange(Marks(a + b)) == None && !EndMeetsStart(Marks(a + b))
  {
    MarksAppend(a, b);
    NoPosition(Marks(a + b), StartMark);
  }

  // -------------------------------------------------------------------------
  // The place of the block among the lines
  // -------------------------------------------------------------------------

  /** No marker line at all, or one start and after it one end. */
  predicate WellFormed(text: string) {
    WellMarked(Marks(Chunks(text)))
  }

  /** The lines before and behind the managed block, the last one closed if there is no block. */
  function Around(chunks: seq<string>): (seq<string>, seq<string>) {
    match LineRange(Marks(chunks))
    case None => (Closing(chunks), [])
    case Some(r) => (chunks[..r.0], chunks[r.1 + 1..])
  }

  lemma {:induction false} AroundBlock(chunks: seq<string>, from: nat, to: nat)
    requires LineRange(Marks(chunks)) == Some((from, to))
    ensures Around(chunks) == (chunks[..from], chunks[to + 1..])
  {
  }

  function LinesOutside(text: string): (seq<string>, seq<string>) {
    Around(Chunks(text))
  }

  lemma {:induction false} PlainOutside(chunks: seq<string>)
    requires LineRange(Marks(chunks)).Some?
    ensures var r := LineRange(Marks(chunks)).value;
      AllPlain(Marks(chunks[..r.0])) && AllPlain(Marks(chunks[r.1 + 1..]))
  {
    var r := LineRange(Marks(chunks)).value;
    AroundIsPlain(Marks(chunks));
    MarksOfParts(chunks, r.0);
    MarksOfParts(chunks, r.1 + 1);
  }

  lemma {:induction false} FrontIsClosed(chunks: seq<string>, k: nat)
    requires WellCut(chunks) && k < |chunks|
    ensures AllClosed(chunks[..k])
  {
  }

  lemma {:induction false} PlainLinesAround(chunks: seq<string>)
    requires WellCut(chunks) && LineRange(Marks(chunks)).Some?
    ensures AllPlain(Marks(Around(chunks).0)) && AllPlain(Marks(Around(chunks).1)) && AllClosed(Around(chunks).0)
  {
    var r := LineRange(Marks(chunks)).value;
    FrontIsClosed(chunks, r.0);
    PlainOutside(chunks);
    AroundBlock(chunks, r.0, r.1);
  }

  lemma {:induction false} BuiltOver(text: string, block: seq<string>, from: nat, to: nat)
    requires AllClosed(block) && LineRange(Marks(Chunks(text))) == Some((from, to))
    ensures Chunks(Replaced(text, Concat(block))) == Chunks(text)[..from] + block + Chunks(text)[to + 1..]
  {
    BlockOfText(text, from, to);
    BuiltInPlace(text, block, from, to + 1);
  }

  lemma {:induction false} BuiltOverBlock(text: string, block: seq<string>) returns (a: seq<string>, b: seq<string>)
    requires AllClosed(block) && LineRange(Marks(Chunks(text))).Some?
    ensures Chunks(Replaced(text, Concat(block))) == a + block + b
    ensures AllPlain(Marks(a)) && AllPlain(Marks(b)) && LinesOutside(text) == (a, b) && AllClosed(a)
  {
    var r := LineRange(Marks(Chunks(text))).value;
    TextIsCut(text);
    PlainLinesAround(Chunks(text));
    AroundBlock(Chunks(text), r.0, r.1);
    a, b := LinesOutside(text).0, LinesOutside(text).1;
    BuiltOver(text, block, r.0, r.1);
  }

  lemma {:induction false} InTwo<T>(lines: seq<T>, k: nat)
    requires k <= |lines|
    ensures lines[..k] + lines[k..] == lines
  {
  }

  lemma {:induction false} MeetingIsBad(marks: seq<Mark>)
    requires EndMeetsStart(marks)
    ensures !WellMarked(marks)
  {
    OnePosition(marks, StartMark);
  }

  lemma {:induction false} BuiltBetween(text: string, block: seq<string>) returns (a: seq<string>, b: seq<string>)
    requires AllClosed(block) && EndMeetsStart(Marks(Chunks(text)))
    ensures Chunks(Replaced(text, Concat(block))) == a + block + b
    ensures a + b == Chunks(text) && !WellFormed(text)
  {
    TextIsCut(text);
    MeetingIsBad(Marks(Chunks(text)));
    var s := MeetingByOffsets(Chunks(text), Marks(Chunks(text)));
    BuiltInPlace(text, block, s, s);
    InTwo(Chunks(text), s);
    a, b := Chunks(text)[..s], Chunks(text)[s..];
  }

  lemma {:induction false} BuiltBehind(text: string, block: seq<string>) returns (a: seq<string>)
    requires AllClosed(block) && LineRange(Marks(Chunks(text))) == None && !EndMeetsStart(Marks(Chunks(text)))
    ensures Chunks(Replaced(text, Concat(block))) == a + block
    ensures a == Closing(Chunks(text)) && LinesOutside(text) == (a, [])
    ensures AllClosed(a) && Marks(a) == Marks(Chunks(text))
  {
    TextIsCut(text);
    ReadersAgreeIff(Chunks(text), Marks(Chunks(text)));
    BuiltAtEnd(text, block);
    ClosingMarks(Chunks(text));
    a := Closing(Chunks(text));
  }

  lemma {:induction false} UnmarkedIsPlain(marks: seq<Mark>)
    requires WellMarked(marks) && LineRange(marks) == None
    ensures AllPlain(marks)
  {
    assert forall k :: 0 <= k < |marks| ==> marks[k] in marks;
  }

  /** The new block stands between lines of the old text: with good markers those outside the old
      block, otherwise all of them. */
  lemma {:induction false} BuiltAround(text: string, block: seq<string>) returns (a: seq<string>, b: seq<string>)
    requires AllClosed(block)
    ensures Chunks(Replaced(text, Concat(block))) == a + block + b
    ensures WellFormed(text) ==> LinesOutside(text) == (a, b) && AllPlain(Marks(a)) && AllPlain(Marks(b))
    ensures !WellFormed(text) ==> Marks(a) + Marks(b) == Marks(Chunks(text))
  {
    if LineRange(Marks(Chunks(text))).Some? {
      a, b := BuiltOverBlock(text, block);
    } else if EndMeetsStart(Marks(Chunks(text))) {
      a, b := BuiltBetween(text, block);
      MarksAppend(a, b);
    } else {
      a := BuiltBehind(text, block);
      b := [];
      assert a + block + b == a + block && Marks(a) + Marks(b) == Marks(a);
      if WellFormed(text) {
        UnmarkedIsPlain(Marks(Chunks(text)));
      }
    }
  }

  // -------------------------------------------------------------------------
  // Reading back what was written
  // -------------------------------------------------------------------------

  lemma {:induction false} LinesOfEnds(lines: seq<string>)
    requires forall l :: l in lines ==> '\n' !in l && ChompCr(l) == l
    ensures Lines(Concat(WithEnds(lines))) == lines
  {
    if lines == [] {
      assert Split([], '\n') == [[]];
    } else {
      var l, rest := lines[0], lines[1..];
      assert l in lines && forall x :: x in rest ==> x in lines;
      LinesOfEnds(rest);
      assert WithEnds(lines)[0] == l + ['\n'] && WithEnds(lines)[1..] == WithEnds(rest);
      LinesThen(l, Concat(WithEnds(rest)));
      assert lines == [l] + rest;
    }
  }

  lemma {:induction false} RuleLinesAreLines(h: HostsEnv, rules: seq<ResolvedRule>)
    requires PrintsIps(h) && OneWord(rules)
    ensures Lines(TargetText(h.formatIp, rules)) == RuleLines(h.formatIp, rules)
  {
    var lines := RuleLines(h.formatIp, rules);
    forall l | l in lines ensures '\n' !in l && ChompCr(l) == l {
      var i :| 0 <= i < |lines| && lines[i] == l;
      RuleLineIsPlain(h, rules[i]);
    }
    LinesOfEnds(lines);
    TargetIsRuleLines(h.formatIp, rules);
  }

  lemma {:induction false} AllOfMembers(read: string -> seq<string>, lines: seq<string>, x: string)
    ensures x in AllOf(read, lines) <==> exists l :: l in lines && x in read(l)
  {
    if lines != [] {
      var front, last := lines[..|lines| - 1], lines[|lines| - 1];
      AllOfMembers(read, front, x);
      assert lines == front + [last];
    }
  }

  /** A line of any words, with white space and a comment around them: a comment alone stays, an
      address and valid names give one line per name, everything else gives nothing. */
  lemma {:induction false} ReadLineIff(h: HostsEnv, gaps: seq<string>, words: seq<string>, tail: string)
    requires IsLine(gaps, words, tail)
    ensures var r := ReadLine(h, Spaced(gaps, words) + tail);
      if words == [] then r == (if tail == [] then [] else [Trim(tail)])
      else if h.parseIp(words[0]).Some? && |words| >= 2 && forall d :: d in words[1..] ==> IsValidDomain(d) then
        |r| == |words| - 1
        && forall i :: 0 <= i < |r| ==> r[i] == h.formatIp(h.parseIp(words[0]).value) + " " + words[i + 1]
      else r == []
  {
    LineParts(gaps, words, tail);
  }

  /** A rule with a valid domain reads as it is written. */
  lemma {:induction false} ValidReadsBack(h: HostsEnv, r: ResolvedRule)
    requires PrintsIps(h) && IsValidDomain(r.domain)
    ensures ReadLine(h, RuleLine(h.formatIp, r)) == [RuleLine(h.formatIp, r)]
  {
    var ip, d := h.formatIp(r.ip), r.domain;
    assert PrintsIp(h, r.ip);
    PairIsLine(ip, d);
    ReadLineIff(h, [[], " ", []], [ip, d], []);
    assert [ip, d][1..] == [d] && [ip, d][1] == d;
  }

  /** Whatever a rule line reads as has a valid domain. */
  ghost predicate SaysValid(h: HostsEnv, x: string) {
    exists ip, d :: x == h.formatIp(ip) + " " + d && IsValidDomain(d)
  }

  lemma {:induction false} RuleLineSays(h: HostsEnv, r: ResolvedRule, x: string)
    requires PrintsIps(h) && x in ReadLine(h, RuleLine(h.formatIp, r))
    ensures SaysValid(h, x)
  {
    var line := RuleLine(h.formatIp, r);
    assert PrintsIp(h, r.ip);
    assert h.formatIp(r.ip)[0] in h.formatIp(r.ip) && line[0] == h.formatIp(r.ip)[0];
    TrimKeepsFirst(line);
    var tokens := Words(Trim(Split(Trim(line), '#')[0]));
    var ip := h.parseIp(tokens[0]).value;
    var i :| 0 <= i < |tokens[1..]| && x == h.formatIp(ip) + " " + tokens[1..][i];
    assert tokens[1..][i] in tokens[1..];
  }

  lemma {:induction false} FirstBlank(a: string, d: string, b: string, e: string)
    requires NoBlanks(a) && NoBlanks(b) && a + " " + d == b + " " + e
    ensures a == b && d == e
  {
    var s := a + " " + d;
    assert s == a + (" " + d) && s == b + (" " + e);
    WordLengthOf(a, " " + d);
    WordLengthOf(b, " " + e);
    assert s[..|a|] == a && s[..|b|] == b && s[|a| + 1..] == d && s[|b| + 1..] == e;
  }

  /** A rule whose domain is not valid is not said. */
  lemma {:induction false} InvalidIsNotSaid(h: HostsEnv, r: ResolvedRule)
    requires PrintsIps(h) && SaysValid(h, RuleLine(h.formatIp, r))
    ensures IsValidDomain(r.domain)
  {
    var ip, d :| RuleLine(h.formatIp, r) == h.formatIp(ip) + " " + d && IsValidDomain(d);
    assert PrintsIp(h, ip) && PrintsIp(h, r.ip);
    FirstBlank(h.formatIp(r.ip), r.domain, h.formatIp(ip), d);
  }

  ghost predicate AllValid(rules: seq<ResolvedRule>) {
    forall r :: r in rules ==> IsValidDomain(r.domain)
  }

  lemma {:induction false} SetOfAll(read: string -> seq<string>, lines: seq<string>)
    ensures forall x :: x in LineSet(AllOf(read, lines)) <==> exists l :: l in lines && x in read(l)
  {
    forall x ensures x in LineSet(AllOf(read, lines)) <==> exists l :: l in lines && x in read(l) {
      AllOfMembers(read, lines, x);
    }
  }

  lemma {:induction false} ValidReadBack(h: HostsEnv, rules: seq<ResolvedRule>)
    requires PrintsIps(h) && AllValid(rules)
    ensures LineSet(AllOf(Reads(h), RuleLines(h.formatIp, rules))) == LineSet(RuleLines(h.formatIp, rules))
  {
    var lines := RuleLines(h.formatIp, rules);
    SetOfAll(Reads(h), lines);
    forall l | l in lines ensures Reads(h)(l) == [l] {
      var i :| 0 <= i < |lines| && lines[i] == l;
      ValidReadsBack(h, rules[i]);
    }
  }

  lemma {:induction false} ReadBackIsValid(h: HostsEnv, rules: seq<ResolvedRule>, r: ResolvedRule)
    requires PrintsIps(h) && r in rules
    requires RuleLine(h.formatIp, r) in LineSet(AllOf(Reads(h), RuleLines(h.formatIp, rules)))
    ensures IsValidDomain(r.domain)
  {
    var lines := RuleLines(h.formatIp, rules);
    SetOfAll(Reads(h), lines);
    var l :| l in lines && RuleLine(h.formatIp, r) in Reads(h)(l);
    var j :| 0 <= j < |lines| && lines[j] == l;
    RuleLineSays(h, rules[j], RuleLine(h.formatIp, r));
    InvalidIsNotSaid(h, r);
  }

  lemma {:induction false} AllReadBackIff(h: HostsEnv, rules: seq<ResolvedRule>)
    requires PrintsIps(h)
    ensures LineSet(AllOf(Reads(h), RuleLines(h.formatIp, rules))) == LineSet(RuleLines(h.formatIp, rules))
       <==> AllValid(rules)
  {
    var lines := RuleLines(h.formatIp, rules);
    if AllValid(rules) {
      ValidReadBack(h, rules);
    }
    if LineSet(AllOf(Reads(h), lines)) == LineSet(lines) {
      forall r | r in rules ensures IsValidDomain(r.domain) {
        var i :| 0 <= i < |rules| && rules[i] == r;
        assert lines[i] in lines;
        ReadBackIsValid(h, rules, r);
      }
    }
  }

  // -------------------------------------------------------------------------
  // When an apply settles
  // -------------------------------------------------------------------------

  lemma {:induction false} NoneWhenTwice(chunks: seq<string>, marks: seq<Mark>)
    requires |marks| == |chunks| && Twice(marks)
    ensures LineRange(marks) == None && OffsetRange(chunks, marks) == None
  {
  }

  lemma {:induction false} NothingManaged(h: HostsEnv, text: string)
    requires Twice(Marks(Chunks(text)))
    ensures ManagedLines(h, text) == []
  {
    NoneWhenTwice(Chunks(text), Marks(Chunks(text)));
  }

  lemma {:induction false} BlockOfRules(h: HostsEnv, rules: seq<ResolvedRule>)
    requires PrintsIps(h) && OneWord(rules) && rules != []
    ensures var block := BlockChunks(h.formatIp, rules);
      && Block(h.formatIp, rules) == Concat(block) && AllClosed(block) && IsBlock(Marks(block), |rules|)
      && |block| == |rules| + 2 && Lines(Concat(block[1..|rules| + 1])) == RuleLines(h.formatIp, rules)
  {
    BlockIsChunks(h.formatIp, rules);
    BlockMarks(h, rules);
    assert BlockChunks(h.formatIp, rules)[1..|rules| + 1] == WithEnds(RuleLines(h.formatIp, rules));
    TargetIsRuleLines(h.formatIp, rules);
    RuleLinesAreLines(h, rules);
  }

  lemma {:induction false} Slices<T>(a: seq<T>, block: seq<T>, b: seq<T>)
    requires |block| >= 2
    ensures (a + block + b)[..|a|] == a && (a + block + b)[|a| + |block|..] == b
    ensures (a + block + b)[|a| + 1..|a| + |block| - 1] == block[1..|block| - 1]
  {
  }

  lemma {:induction false} SameInner(h: HostsEnv, a: seq<string>, b: seq<string>)
    requires a == b
    ensures ReadInner(h, a) == ReadInner(h, b)
  {
  }

  /** What is read from a text with a good block in it. */
  lemma {:induction false} BlockIsRead(h: HostsEnv, written: string, a: seq<string>, block: seq<string>, n: nat,
      b: seq<string>)
    requires Chunks(written) == a + block + b && |block| == n + 2
    requires LineRange(Marks(Chunks(written))) == Some((|a|, |a| + n + 1))
    ensures ManagedLines(h, written) == ReadInner(h, block[1..n + 1])
  {
    Slices(a, block, b);
    ManagedOf(h, written, |a|, |a| + n + 1);
    SameInner(h, Chunks(written)[|a| + 1..|a| + n + 1], block[1..n + 1]);
  }

  lemma {:induction false} OutsideIsRead(written: string, a: seq<string>, block: seq<string>, n: nat, b: seq<string>)
    requires Chunks(written) == a + block + b && |block| == n + 2
    requires LineRange(Marks(Chunks(written))) == Some((|a|, |a| + n + 1))
    ensures LinesOutside(written) == (a, b)
  {
    Slices(a, block, b);
    AroundBlock(Chunks(written), |a|, |a| + n + 1);
  }

  lemma {:induction false} ReplacedIsRead(h: HostsEnv, text: string, block: seq<string>, n: nat)
    requires AllClosed(block) && IsBlock(Marks(block), n)
    ensures |block| == n + 2
    ensures ManagedLines(h, Replaced(text, Concat(block)))
         == if WellFormed(text) then ReadInner(h, block[1..n + 1]) else []
  {
    var a, b := BuiltAround(text, block);
    assert |Marks(block)| == n + 2;
    if WellFormed(text) {
      BlockIsFound(a, block, n, b);
      BlockIsRead(h, Replaced(text, Concat(block)), a, block, n, b);
    } else {
      MarkersPileUp(a, block, n, b);
      NothingManaged(h, Replaced(text, Concat(block)));
    }
  }

  lemma {:induction false} NoLines(a: seq<string>, none: seq<string>, b: seq<string>)
    requires none == []
    ensures a + none + b == a + b
  {
  }

  lemma {:induction false} NothingWritten(h: HostsEnv, text: string)
    ensures ManagedLines(h, Build(h.formatIp, text, [])) == []
  {
    var a, b := BuiltAround(text, []);
    NoLines(a, [], b);
    if WellFormed(text) {
      NoBlockLeft(a, b);
    } else {
      MarksAppend(a, b);
    }
  }

  /** After an apply the block of the text holds the written rules, if the markers were good; with
      bad ones no block is found. */
  lemma {:induction false} ManagedAfter(h: HostsEnv, text: string, rules: seq<ResolvedRule>)
    requires PrintsIps(h) && OneWord(rules)
    ensures ManagedLines(h, Build(h.formatIp, text, rules))
         == if WellFormed(text) then AllOf(Reads(h), RuleLines(h.formatIp, rules)) else []
  {
    if rules == [] {
      NothingWritten(h, text);
    } else {
      BlockOfRules(h, rules);
      ReplacedIsRead(h, text, BlockChunks(h.formatIp, rules), |rules|);
    }
  }

  lemma {:induction false} TargetLines(h: HostsEnv, rules: seq<ResolvedRule>)
    requires PrintsIps(h) && OneWord(rules)
    ensures Target(EnvOf(h), rules) == LineSet(RuleLines(h.formatIp, rules))
  {
    RuleLinesAreLines(h, rules);
  }

  /** What the next plan finds in the written text is what the rules say if and only if there is no
      rule, or the markers were good and every domain is one the hosts parser accepts. */
  lemma {:induction false} SettlesIff(h: HostsEnv, text: string, rules: seq<ResolvedRule>)
    requires PrintsIps(h) && OneWord(rules)
    ensures Existing(EnvOf(h), EnvOf(h).build(text, rules)) == Target(EnvOf(h), rules)
       <==> rules == [] || (WellFormed(text) && AllValid(rules))
  {
    TargetLines(h, rules);
    if rules == [] {
      NothingWritten(h, text);
    } else {
      ManagedAfter(h, text, rules);
      AllReadBackIff(h, rules);
      assert RuleLines(h.formatIp, rules)[0] in LineSet(RuleLines(h.formatIp, rules));
    }
  }

  /** What the validation of a stored profile says about its domains. */
  ghost predicate NoBlankDomains(profiles: seq<Profile>) {
    forall p, rule, d :: p in profiles && rule in p.rules && d in rule.domains ==> NoBlanks(d)
  }

  lemma {:induction false} MergedIsOneWord(profiles: seq<Profile>, m: MergeResult)
    requires NoBlankDomains(profiles) && IsMerge(Expanded(profiles), m)
    ensures OneWord(m.rules)
  {
    RuleOrders();
    InOrderIncreases(RuleLe, Settled(Expanded(profiles)));
    forall r | r in m.rules ensures NoBlanks(r.domain) {
      ExpandedMembers(profiles, r);
    }
  }

  /** Applying a plan and planning again from the same profiles: nothing is left to add or remove
      under the same condition; otherwise every later preview shows changes. */
  lemma {:induction false} SecondPlanIsEmptyIff(h: HostsEnv, profiles: seq<Profile>, text: string, plan: ApplyPlan,
      again: ApplyPlan)
    requires PrintsIps(h) && NoBlankDomains(profiles) && IsPlan(EnvOf(h), profiles, text, plan)
    requires IsPlan(EnvOf(h), profiles, EnvOf(h).build(text, plan.rules), again)
    ensures again.diff.added == [] && again.diff.removed == []
       <==> plan.rules == [] || (WellFormed(text) && AllValid(plan.rules))
    ensures again.backupRequired <==> !(plan.rules == [] || (WellFormed(text) && AllValid(plan.rules)))
  {
    MergedIsOneWord(profiles, MergeResult(plan.rules, plan.conflicts));
    MergeIsUnique(Expanded(profiles), MergeResult(plan.rules, plan.conflicts),
                  MergeResult(again.rules, again.conflicts));
    SettlesIff(h, text, plan.rules);
    DiffSets(Target(EnvOf(h), plan.rules), Existing(EnvOf(h), EnvOf(h).build(text, plan.rules)));
  }

  // -------------------------------------------------------------------------
  // Applying again, and what is not managed
  // -------------------------------------------------------------------------

  lemma {:induction false} SameChunksSameText(s: string, t: string)
    requires Chunks(s) == Chunks(t)
    ensures s == t
  {
    ChunksAreCut(s);
    ChunksAreCut(t);
  }

  /** Replacing a good block by the same one changes nothing. */
  lemma {:induction false} SettledStays(text: string, block: seq<string>, n: nat)
    requires AllClosed(block) && IsBlock(Marks(block), n) && WellFormed(text)
    ensures Replaced(Replaced(text, Concat(block)), Concat(block)) == Replaced(text, Concat(block))
  {
    var once := Replaced(text, Concat(block));
    var a, b := BuiltAround(text, block);
    assert |Marks(block)| == n + 2;
    BlockIsFound(a, block, n, b);
    OutsideIsRead(once, a, block, n, b);
    var a', b' := BuiltAround(once, block);
    SameChunksSameText(once, Replaced(once, Concat(block)));
  }

  lemma {:induction false} AppendedAgain(text: string, block: seq<string>, n: nat)
    requires AllClosed(block) && IsBlock(Marks(block), n) && !WellFormed(text)
    ensures var once := Replaced(text, Concat(block));
      Replaced(once, Concat(block)) == WithFinalNewline(once) + Concat(block) && Replaced(once, Concat(block)) != once
  {
    var once := Replaced(text, Concat(block));
    var a, b := BuiltAround(text, block);
    MarkersPileUp(a, block, n, b);
    NoneWhenTwice(Chunks(once), Marks(Chunks(once)));
    BlockIsLong(block, n);
  }

  lemma {:induction false} BlockIsLong(block: seq<string>, n: nat)
    requires AllClosed(block) && IsBlock(Marks(block), n)
    ensures |Concat(block)| > 0
  {
    assert |block| == |Marks(block)| && block == [block[0]] + block[1..];
    ConcatAppend([block[0]], block[1..]);
    ConcatOne(block[0]);
  }

  /** There is a block and text behind it whose last line is not closed. */
  predicate EndsOpenBehindBlock(text: string) {
    LinesOutside(text).1 != [] && !IsClosed(LinesOutside(text).1[|LinesOutside(text).1| - 1])
  }

  /** Without rules a second apply finds nothing to remove and closes the last line. */
  lemma {:induction false} EmptiedAgainIff(text: string)
    ensures Replaced(Replaced(text, Concat([])), Concat([])) == Replaced(text, Concat([]))
       <==> !EndsOpenBehindBlock(text)
  {
    var once := Replaced(text, Concat([]));
    if LineRange(Marks(Chunks(text))).Some? {
      var a, b := BuiltOverBlock(text, []);
      NoLines(a, [], b);
      NoBlockLeft(a, b);
      var c := BuiltBehind(once, []);
      assert c + [] == c;
      ClosedIff(a, b);
      if Closing(a + b) == a + b {
        SameChunksSameText(once, Replaced(once, Concat([])));
      }
    } else if EndMeetsStart(Marks(Chunks(text))) {
      var a, b := BuiltBetween(text, []);
      NoLines(a, [], b);
      SameChunksSameText(once, text);
    } else {
      var a := BuiltBehind(text, []);
      assert a + [] == a;
      var c := BuiltBehind(once, []);
      assert c + [] == c;
      SameChunksSameText(once, Replaced(once, Concat([])));
    }
  }

  lemma {:induction false} ClosedIff(a: seq<string>, b: seq<string>)
    requires AllClosed(a)
    ensures Closing(a + b) == a + b <==> b == [] || IsClosed(b[|b| - 1])
  {
    if b == [] {
      assert a + b == a;
    } else {
      var last := b[|b| - 1];
      assert (a + b)[|a + b| - 1] == last;
      if !IsClosed(last) {
        assert Closing(a + b)[|a + b| - 1] == last + ['\n'];
      }
    }
  }

  /** A second apply of the same rules leaves the text alone if and only if the markers were good,
      or there are no rules and what is behind the removed block, if anything, ends in a newline.
      With bad markers each apply appends another block. */
  lemma {:induction false} ApplyAgainIff(h: HostsEnv, text: string, rules: seq<ResolvedRule>)
    requires PrintsIps(h) && OneWord(rules)
    ensures var once := Build(h.formatIp, text, rules);
      Build(h.formatIp, once, rules) == once
      <==> if rules == [] then !EndsOpenBehindBlock(text) else WellFormed(text)
    ensures var once := Build(h.formatIp, text, rules);
      rules != [] && !WellFormed(text) ==>
        Build(h.formatIp, once, rules) == WithFinalNewline(once) + Block(h.formatIp, rules)
  {
    if rules == [] {
      EmptiedAgainIff(text);
    } else {
      var block := BlockChunks(h.formatIp, rules);
      BlockOfRules(h, rules);
      if WellFormed(text) {
        SettledStays(text, block, |rules|);
      } else {
        AppendedAgain(text, block, |rules|);
      }
    }
  }

  /** With good markers an apply leaves every line outside the block as it is; with no rules only
      these lines are left. */
  lemma {:induction false} OutsideIsKept(h: HostsEnv, text: string, rules: seq<ResolvedRule>)
    requires PrintsIps(h) && OneWord(rules) && WellFormed(text)
    ensures rules != [] ==> LinesOutside(Build(h.formatIp, text, rules)) == LinesOutside(text)
    ensures rules == [] ==> Chunks(Build(h.formatIp, text, rules)) == LinesOutside(text).0 + LinesOutside(text).1
  {
    if rules == [] {
      var a, b := BuiltAround(text, []);
      NoLines(a, [], b);
    } else {
      BlockOfRules(h, rules);
      ReplacedKeeps(text, BlockChunks(h.formatIp, rules), |rules|);
    }
  }

  lemma {:induction false} ReplacedKeeps(text: string, block: seq<string>, n: nat)
    requires AllClosed(block) && IsBlock(Marks(block), n) && WellFormed(text)
    ensures LinesOutside(Replaced(text, Concat(block))) == LinesOutside(text)
  {
    var a, b := BuiltAround(text, block);
    assert |Marks(block)| == n + 2;
    BlockIsFound(a, block, n, b);
    OutsideIsRead(Replaced(text, Concat(block)), a, block, n, b);
  }

  /** With bad markers nothing is lost either: the new block is put into the old text. */
  lemma {:induction false} NothingIsLost(text: string, block: string)
    requires !WellFormed(text)
    ensures Replaced(text, block) == WithFinalNewline(text) + block
         || exists k :: 0 <= k <= |text| && Replaced(text, block) == text[..k] + block + text[k..]
  {
    ChunksAreCut(text);
    ReadersAgreeIff(Chunks(text), Marks(Chunks(text)));
    if EndMeetsStart(Marks(Chunks(text))) {
      OnePosition(Marks(Chunks(text)), StartMark);
      var s := Positions(Marks(Chunks(text)), StartMark)[0];
      OffsetWithin(Chunks(text), s);
      var k := Offset(Chunks(text), s);
      assert Replaced(text, block) == text[..k] + block + text[k..];
    }
  }

  lemma {:induction false} CutOut(text: string, i: nat, j: nat)
    requires i <= j <= |Chunks(text)|
    ensures Offset(Chunks(text), i) <= |text| && Offset(Chunks(text), j) <= |text|
    ensures text[..Offset(Chunks(text), i)] == Concat(Chunks(text)[..i])
    ensures text[Offset(Chunks(text), j)..] == Concat(Chunks(text)[j..])
  {
    ChunksAreCut(text);
    OffsetWithin(Chunks(text), i);
    OffsetWithin(Chunks(text), j);
  }

  lemma {:induction false} ReplacedAt(text: string, block: string, i: nat, j: nat)
    requires i <= j <= |Chunks(text)|
    requires OffsetRange(Chunks(text), Marks(Chunks(text))) == Some((Offset(Chunks(text), i), Offset(Chunks(text), j)))
    ensures Replaced(text, block) == Concat(Chunks(text)[..i]) + block + Concat(Chunks(text)[j..])
  {
    CutOut(text, i, j);
  }

  /** Character by character: the lines from the one marker to the other give way to the block. */
  lemma {:induction false} BlockGivesWay(text: string, block: string, from: nat, to: nat)
    requires LineRange(Marks(Chunks(text))) == Some((from, to))
    ensures from < to < |Chunks(text)|
    ensures Replaced(text, block) == Concat(Chunks(text)[..from]) + block + Concat(Chunks(text)[to + 1..])
  {
    BlockOfText(text, from, to);
    ReplacedAt(text, block, from, to + 1);
  }

  lemma {:induction false} NoOffsets(text: string)
    requires LineRange(Marks(Chunks(text))) == None && !EndMeetsStart(Marks(Chunks(text)))
    ensures OffsetRange(Chunks(text), Marks(Chunks(text))) == None
  {
    TextIsCut(text);
    ReadersAgreeIff(Chunks(text), Marks(Chunks(text)));
  }

  /** A text without a block gets it at its end, on a line of its own. */
  lemma {:induction false} BlockIsAppended(text: string, block: string)
    requires LineRange(Marks(Chunks(text))) == None && !EndMeetsStart(Marks(Chunks(text)))
    ensures Replaced(text, block)
         == (if text == "" || text[|text| - 1] == '\n' then text else text + "\n") + block
  {
    NoOffsets(text);
  }

  /** The validation of profiles keeps blanks out of domains but lets this one in. */
  lemma {:induction false} UnderscoreIsOneWord(ip: IpAddr)
    ensures OneWord([ResolvedRule(ip, "a_b", 0, "")]) && !AllValid([ResolvedRule(ip, "a_b", 0, "")])
  {
    assert '_' in "a_b" && [ResolvedRule(ip, "a_b", 0, "")][0].domain == "a_b";
  }

  /** A single start marker is enough to spoil a text. */
  lemma {:induction false} StrayMarker()
    ensures !WellFormed(MANAGED_START + ['\n'])
  {
    OneMarker();
    var chunks := [MANAGED_START + ['\n']];
    CutAgain(chunks);
    ConcatOne(chunks[0]);
    NoPosition([StartMark], EndMark);
    assert [StartMark][0] == StartMark;
  }
}
