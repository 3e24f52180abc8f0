/** The two blocklist readers and the canonical cache text between a fetch and a reload. */
module Blocklist {
  import opened Base
  import opened Text
  import opened Spacing
  import opened Domains
  import opened AdBlockModel

  /** Accepted domains and the number of lines that failed to parse. */
  datatype Parse = Parse(domains: seq<string>, errors: nat)

  // -------------------------------------------------------------------------
  // Domains format: one bare domain per line
  // -------------------------------------------------------------------------

  datatype Line = Accepted(domains: seq<string>) | Rejected | Ignored

  /** What is before the first `#`, trimmed. */
  function Candidate(line: string): string {
    Trim(Split(line, '#')[0])
  }

  function DomainLine(line: string): Line {
    if Candidate(line) == [] then Ignored
    else match ValidateDomain(Candidate(line))
         case Some(d) => Accepted([d])
         case None => Rejected
  }

  // -------------------------------------------------------------------------
  // Hosts format
  // -------------------------------------------------------------------------

  predicate DigitOrDot(c: char) { '0' <= c <= '9' || c == '.' }

  /** Made of digits and dots only, like an address or part of one. */
  predicate Numeric(d: string) {
    forall c :: c in d ==> DigitOrDot(c)
  }

  predicate IsValidDomain(d: string) {
    && d != []
    && d[0] != '-' && d[|d| - 1] != '-' && d[|d| - 1] != '.'
    && (forall c :: c in d ==> IsAsciiAlphanumeric(c) || c == '-' || c == '.')
    && !Numeric(d)
    && (forall l :: l in Split(d, '.') ==> l != [] && l[0] != '-' && l[|l| - 1] != '-')
  }

  /** `isIp` stands for the standard library's address parser. A comment line is a rule that is
      not enabled and contributes nothing. */
  function HostsLine(isIp: string -> bool, line: string): Line {
    var trimmed := Trim(line);
    if trimmed == [] || trimmed[0] == '#' then Ignored
    else
      var content := Trim(Split(trimmed, '#')[0]);
      if content == [] then Ignored
      else
        var tokens := Words(content);
        if tokens == [] then Ignored
        else if !isIp(tokens[0]) || |tokens| < 2 then Rejected
        else if exists d :: d in tokens[1..] && !IsValidDomain(d) then Rejected
        else Accepted(LowerAll(tokens[1..]))
  }

  function LowerAll(texts: seq<string>): (r: seq<string>)
    ensures |r| == |texts|
    ensures forall i :: 0 <= i < |r| ==> r[i] == Lower(texts[i])
  {
    seq(|texts|, i requires 0 <= i < |texts| => Lower(texts[i]))
  }

  // -------------------------------------------------------------------------
  // Whole files
  // -------------------------------------------------------------------------

  function Reader(isIp: string -> bool, format: Format): string -> Line {
    match format
    case Hosts => (line: string) => HostsLine(isIp, line)
    case Domains => (line: string) => DomainLine(line)
  }

  function ParseLines(read: string -> Line, lines: seq<string>): Parse {
    if lines == [] then Parse([], 0)
    else
      var before := ParseLines(read, lines[..|lines| - 1]);
      match read(lines[|lines| - 1])
      case Accepted(ds) => Parse(before.domains + ds, before.errors)
      case Rejected => Parse(before.domains, before.errors + 1)
      case Ignored => before
  }

  lemma {:induction false} ParseLinesSnoc(read: string -> Line, lines: seq<string>, line: string)
    ensures ParseLines(read, lines + [line]) ==
      var before := ParseLines(read, lines);
      match read(line)
      case Accepted(ds) => Parse(before.domains + ds, before.errors)
      case Rejected => Parse(before.domains, before.errors + 1)
      case Ignored => before
  {
    assert (lines + [line])[..|lines|] == lines;
  }

  function ParseBlocklist(isIp: string -> bool, format: Format, content: string): Parse {
    ParseLines(Reader(isIp, format), Lines(content))
  }

  /** The domains-format reader as the loop it is. */
  method ParseDomainsBlocklist(isIp: string -> bool, content: string) returns (parsed: Parse)
    ensures parsed == ParseBlocklist(isIp, Format.Domains, content)
  {
    var lines := Lines(content);
    var domains: seq<string>, errors := [], 0;
    for i := 0 to |lines|
      invariant Parse(domains, errors) == ParseLines(Reader(isIp, Format.Domains), lines[..i])
    {
      assert lines[..i + 1] == lines[..i] + [lines[i]];
      ParseLinesSnoc(Reader(isIp, Format.Domains), lines[..i], lines[i]);
      var candidate := Candidate(lines[i]);
      if candidate == [] {
        continue;
      }
      match ValidateDomain(candidate) {
        case Some(d) => domains := domains + [d];
        case None => errors := errors + 1;
      }
    }
    assert lines[..|lines|] == lines;
    parsed := Parse(domains, errors);
  }

  /** The hosts-format reader: every accepted line may contribute several domains. */
  method ParseBlocklistDomains(isIp: string -> bool, content: string) returns (parsed: Parse)
    ensures parsed == ParseBlocklist(isIp, Format.Hosts, content)
  {
    var lines := Lines(content);
    var domains: seq<string>, errors := [], 0;
    for i := 0 to |lines|
      invariant Parse(domains, errors) == ParseLines(Reader(isIp, Format.Hosts), lines[..i])
    {
      assert lines[..i + 1] == lines[..i] + [lines[i]];
      ParseLinesSnoc(Reader(isIp, Format.Hosts), lines[..i], lines[i]);
      match HostsLine(isIp, lines[i]) {
        case Accepted(ds) => domains := domains + ds;
        case Rejected => errors := errors + 1;
        case Ignored =>
      }
    }
    assert lines[..|lines|] == lines;
    parsed := Parse(domains, errors);
  }

  /** Lines that end up blank or as comments. */
  function IgnoredCount(read: string -> Line, lines: seq<string>): nat {
    if lines == [] then 0
    else IgnoredCount(read, lines[..|lines| - 1]) + if read(lines[|lines| - 1]).Ignored? then 1 else 0
  }

  /** In the domains format every line is accepted, counted as an error, or blank; nothing is
      dropped in silence. Accepted entries are canonical host names. */
  lemma {:induction false} DomainLinesPartition(isIp: string -> bool, lines: seq<string>)
    ensures var read := Reader(isIp, Format.Domains);
      var p := ParseLines(read, lines);
      && |p.domains| + p.errors + IgnoredCount(read, lines) == |lines|
      && forall d :: d in p.domains ==> IsHostname(d)
  {
    if lines != [] {
      var line := lines[|lines| - 1];
      DomainLinesPartition(isIp, lines[..|lines| - 1]);
      if DomainLine(line).Accepted? {
        ValidatorIsGrammar(Candidate(line), DomainLine(line).domains[0]);
      }
    }
  }

  // -------------------------------------------------------------------------
  // What a line says
  // -------------------------------------------------------------------------

  /** Letters of either case, digits and inner hyphens. */
  ghost predicate IsAnyLabel(l: string) {
    && l != []
    && (forall c :: c in l ==> 'a' <= c <= 'z' || 'A' <= c <= 'Z' || '0' <= c <= '9' || c == '-')
    && l[0] != '-' && l[|l| - 1] != '-'
  }

  ghost predicate IsDotted(d: string) {
    exists labels: seq<string> :: labels != [] && d == Join(labels, '.') && forall l :: l in labels ==> IsAnyLabel(l)
  }

  lemma {:induction false} DottedLabels(d: string)
    ensures IsDotted(d) <==> forall l :: l in Split(d, '.') ==> IsAnyLabel(l)
  {
    if IsDotted(d) {
      var labels: seq<string> :| labels != [] && d == Join(labels, '.') && forall l :: l in labels ==> IsAnyLabel(l);
      SplitOfJoin(labels, '.');
    }
    JoinOfSplit(d, '.');
  }

  /** The hosts parser takes names made of labels between dots, in either case and of any length,
      unless they are made of digits and dots only. */
  lemma {:induction false} ValidDomainIff(d: string)
    ensures IsValidDomain(d) <==> IsDotted(d) && exists c :: c in d && c != '.' && !('0' <= c <= '9')
  {
    DottedLabels(d);
    var pieces := Split(d, '.');
    JoinOfSplit(d, '.');
    assert pieces[0] in pieces && pieces[|pieces| - 1] in pieces;
    if d != [] {
      SplitEnds(d, '.');
    }
    if IsDotted(d) {
      forall c | c in d ensures IsAsciiAlphanumeric(c) || c == '-' || c == '.' {
        SplitChars(d, '.', c);
      }
    }
    if IsValidDomain(d) {
      forall l, c | l in pieces && c in l ensures IsAsciiAlphanumeric(c) || c == '-' {
        SplitChars(d, '.', c);
      }
    }
  }

  /** A hosts-format line of any words, with white space and a comment around them: without words
      it says nothing, an address and valid names give the names in lower case, everything else is
      an error. */
  lemma {:induction false} HostsLineIff(isIp: string -> bool, gaps: seq<string>, words: seq<string>, tail: string)
    requires IsLine(gaps, words, tail)
    ensures HostsLine(isIp, Spaced(gaps, words) + tail)
         == if words == [] then Ignored
            else if isIp(words[0]) && |words| >= 2 && forall d :: d in words[1..] ==> IsValidDomain(d)
            then Accepted(LowerAll(words[1..]))
            else Rejected
  {
    LineParts(gaps, words, tail);
  }

  /** A domains-format line of any text, with white space and a comment around it. */
  lemma {:induction false} DomainLineIff(left: string, name: string, right: string, tail: string)
    requires AllBlank(left) && AllBlank(right) && Trimmed(name) && '#' !in name && IsRemark(tail)
    ensures DomainLine(left + name + right + tail)
         == if name == [] then Ignored
            else if IsHostname(Lower(name)) then Accepted([Lower(name)])
            else Rejected
  {
    var body := left + name + right;
    TrimOf(left, name, right);
    if tail == [] {
      assert body + tail == body;
      SplitNone(body, '#');
    } else {
      FirstPiece(body, tail);
    }
    TrimOf([], name, []);
    assert [] + name + [] == name;
    ValidatorIsGrammar(name, Lower(name));
    if ValidateDomain(name).Some? {
      ValidatorIsGrammar(name, ValidateDomain(name).value);
    }
  }

  // -------------------------------------------------------------------------
  // What a file says
  // -------------------------------------------------------------------------

  ghost predicate Says(read: string -> Line, line: string, d: string) {
    read(line).Accepted? && d in read(line).domains
  }

  lemma {:induction false} ParsedIsSaid(read: string -> Line, lines: seq<string>, d: string)
    ensures d in ParseLines(read, lines).domains <==> exists line :: line in lines && Says(read, line, d)
  {
    if lines != [] {
      var front, last := lines[..|lines| - 1], lines[|lines| - 1];
      ParsedIsSaid(read, front, d);
      assert lines == front + [last];
      assert Says(read, last, d) || !Says(read, last, d);
    }
  }

  /** The line holds an address and this valid name, among others perhaps, all of them valid. */
  ghost predicate Names(isIp: string -> bool, line: string, name: string) {
    exists gaps, words, tail :: IsLine(gaps, words, tail) && NamesBy(isIp, line, name, gaps, words, tail)
  }

  ghost predicate NamesBy(isIp: string -> bool, line: string, name: string, gaps: seq<string>, words: seq<string>,
      tail: string) {
    && IsLine(gaps, words, tail) && line == Spaced(gaps, words) + tail
    && |words| >= 2 && isIp(words[0]) && (forall d :: d in words[1..] ==> IsValidDomain(d)) && name in words[1..]
  }

  lemma {:induction false} LowerAllMembers(names: seq<string>, d: string)
    ensures d in LowerAll(names) <==> exists n :: n in names && d == Lower(n)
  {
    if d in LowerAll(names) {
      var i :| 0 <= i < |names| && LowerAll(names)[i] == d;
      assert names[i] in names;
    }
    if n :| n in names && d == Lower(n) {
      var i :| 0 <= i < |names| && names[i] == n;
      assert LowerAll(names)[i] == d;
    }
  }

  lemma {:induction false} SaidIsNamed(isIp: string -> bool, line: string, d: string)
    ensures Says(Reader(isIp, Format.Hosts), line, d) <==> exists name :: Names(isIp, line, name) && d == Lower(name)
  {
    if Says(Reader(isIp, Format.Hosts), line, d) {
      var gaps, words, tail := EveryLine(line);
      HostsLineIff(isIp, gaps, words, tail);
      LowerAllMembers(words[1..], d);
      var name :| name in words[1..] && d == Lower(name);
      assert NamesBy(isIp, line, name, gaps, words, tail);
      assert Names(isIp, line, name);
    }
    if name :| Names(isIp, line, name) && d == Lower(name) {
      var gaps, words, tail :| IsLine(gaps, words, tail) && NamesBy(isIp, line, name, gaps, words, tail);
      HostsLineIff(isIp, gaps, words, tail);
      LowerAllMembers(words[1..], d);
    }
  }

  /** A hosts-format file yields exactly the names of its good lines, in lower case. */
  lemma {:induction false} HostsFileReads(isIp: string -> bool, content: string, d: string)
    ensures d in ParseBlocklist(isIp, Format.Hosts, content).domains
       <==> exists line, name :: line in Lines(content) && Names(isIp, line, name) && d == Lower(name)
  {
    ParsedIsSaid(Reader(isIp, Format.Hosts), Lines(content), d);
    forall line ensures Says(Reader(isIp, Format.Hosts), line, d)
                   <==> exists name :: Names(isIp, line, name) && d == Lower(name)
    {
      SaidIsNamed(isIp, line, d);
    }
  }

  /** The line holds a text that is a host name up to capitals. */
  ghost predicate HoldsName(line: string, name: string) {
    IsHostname(Lower(name)) && exists left, right, tail :: Frames(left, name, right, tail, line)
  }

  ghost predicate Frames(left: string, name: string, right: string, tail: string, line: string) {
    && AllBlank(left) && Trimmed(name) && '#' !in name && AllBlank(right) && IsRemark(tail)
    && line == left + name + right + tail
  }

  lemma {:induction false} EveryLineFrames(line: string) returns (left: string, name: string, right: string,
      tail: string)
    ensures Frames(left, name, right, tail, line)
  {
    var n := BeforeRemark(line);
    left, right := TrimCuts(line[..n]);
    name, tail := Trim(line[..n]), line[n..];
    NoneInside(left, name, right, '#');
    assert line == line[..n] + tail;
  }

  lemma {:induction false} FramedLine(left: string, name: string, right: string, tail: string, line: string)
    requires Frames(left, name, right, tail, line)
    ensures DomainLine(line)
         == if name == [] then Ignored
            else if IsHostname(Lower(name)) then Accepted([Lower(name)])
            else Rejected
  {
    DomainLineIff(left, name, right, tail);
  }

  lemma {:induction false} SaidIsHeld(isIp: string -> bool, line: string, d: string)
    ensures Says(Reader(isIp, Format.Domains), line, d) <==> exists name :: HoldsName(line, name) && d == Lower(name)
  {
    if Says(Reader(isIp, Format.Domains), line, d) {
      var left, name, right, tail := EveryLineFrames(line);
      FramedLine(left, name, right, tail, line);
      assert HoldsName(line, name);
    }
    if name :| HoldsName(line, name) && d == Lower(name) {
      var left, right, tail :| Frames(left, name, right, tail, line);
      FramedLine(left, name, right, tail, line);
      assert !IsHostname(Lower([]));
    }
  }

  /** A domains-format file yields exactly the host names on its lines, in lower case. */
  lemma {:induction false} DomainsFileReads(isIp: string -> bool, content: string, d: string)
    ensures d in ParseBlocklist(isIp, Format.Domains, content).domains
       <==> exists line, name :: line in Lines(content) && HoldsName(line, name) && d == Lower(name)
  {
    ParsedIsSaid(Reader(isIp, Format.Domains), Lines(content), d);
    forall line ensures Says(Reader(isIp, Format.Domains), line, d)
                   <==> exists name :: HoldsName(line, name) && d == Lower(name)
    {
      SaidIsHeld(isIp, line, d);
    }
  }

  /** Parsing a file piece by piece: domains in the order of the lines, errors added up. */
  lemma {:induction false} ParsedInOrder(read: string -> Line, a: seq<string>, b: seq<string>)
    ensures ParseLines(read, a + b).domains == ParseLines(read, a).domains + ParseLines(read, b).domains
    ensures ParseLines(read, a + b).errors == ParseLines(read, a).errors + ParseLines(read, b).errors
  {
    if b == [] {
      assert a + b == a;
    } else {
      var front, last := b[..|b| - 1], b[|b| - 1];
      assert a + b == a + front + [last] && b == front + [last];
      ParsedInOrder(read, a, front);
      ParseLinesSnoc(read, a + front, last);
    }
  }

  /** The error count is the number of lines that were rejected. */
  lemma {:induction false} ErrorsAreRejected(read: string -> Line, lines: seq<string>)
    ensures ParseLines(read, lines).errors == |Filter((l: string) => read(l).Rejected?, lines)|
  {
    var rejected := (l: string) => read(l).Rejected?;
    if lines != [] {
      var front, last := lines[..|lines| - 1], lines[|lines| - 1];
      ErrorsAreRejected(read, front);
      assert lines == front + [last];
      FilterSnoc(rejected, front, last);
    }
  }

  // -------------------------------------------------------------------------
  // The canonical cache text
  // -------------------------------------------------------------------------

  const PREFIX := "0.0.0.0 "

  function CanonLines(domains: seq<string>): (r: seq<string>)
    ensures |r| == |domains|
    ensures forall i :: 0 <= i < |r| ==> r[i] == PREFIX + domains[i]
  {
    seq(|domains|, i requires 0 <= i < |domains| => PREFIX + domains[i])
  }

  /** One `0.0.0.0 domain` line per domain, newlines between lines and none at the end. */
  function Canon(domains: seq<string>): string {
    Join(CanonLines(domains), '\n')
  }

  lemma {:induction false} JoinSnoc(parts: seq<string>, p: string, sep: char)
    requires parts != []
    ensures Join(parts + [p], sep) == Join(parts, sep) + [sep] + p
  {
    if |parts| > 1 {
      assert (parts + [p])[1..] == parts[1..] + [p];
      JoinSnoc(parts[1..], p, sep);
    } else {
      assert (parts + [p])[1..] == [p];
    }
  }

  /** Writes into one buffer, a separator before every entry but the first. */
  method WriteCanon(domains: seq<string>) returns (canon: string)
    ensures canon == Canon(domains)
  {
    canon := [];
    for i := 0 to |domains|
      invariant canon == Canon(domains[..i])
    {
      assert CanonLines(domains[..i + 1]) == CanonLines(domains[..i]) + [PREFIX + domains[i]];
      if i > 0 {
        JoinSnoc(CanonLines(domains[..i]), PREFIX + domains[i], '\n');
        canon := canon + "\n";
      }
      canon := canon + (PREFIX + domains[i]);
    }
    assert domains[..|domains|] == domains;
  }

  /** What the buffer reserves: nine bytes more than each domain. */
  function Reserved(domains: seq<string>, size: string -> nat): nat {
    if domains == [] then 0 else size(domains[0]) + 9 + Reserved(domains[1..], size)
  }

  ghost predicate Additive(size: string -> nat) {
    size([]) == 0 && forall a, b :: size(a + b) == size(a) + size(b)
  }

  /** In any byte encoding that takes one byte for ASCII, the text is one byte short of the
      reservation (the separator after the last line), or empty: the buffer never grows. */
  lemma {:induction false} CanonFitsReservation(domains: seq<string>, size: string -> nat)
    requires Additive(size) && size(PREFIX) == 8 && size("\n") == 1
    ensures size(Canon(domains)) + (if domains == [] then 0 else 1) == Reserved(domains, size)
  {
    if domains != [] {
      CanonFitsReservation(domains[1..], size);
      assert CanonLines(domains)[1..] == CanonLines(domains[1..]);
      assert size(PREFIX + domains[0]) == 8 + size(domains[0]);
      if |domains| > 1 {
        var head, tail := PREFIX + domains[0], Canon(domains[1..]);
        assert Canon(domains) == head + ("\n" + tail);
        assert size(head + ("\n" + tail)) == size(head) + (size("\n") + size(tail));
      }
    }
  }

  /** The cache read back line by line, prefix stripped. */
  function StripPrefix(lines: seq<string>): seq<string> {
    seq(|lines|, i requires 0 <= i < |lines| => if |lines[i]| >= 8 then lines[i][8..] else lines[i])
  }

  /** Splitting the text on newlines and stripping the prefixes gives back the list that was
      written, as long as no domain holds a newline; the empty list is the empty text. */
  lemma {:induction false} CanonRoundTrip(domains: seq<string>)
    requires forall d :: d in domains ==> '\n' !in d
    ensures Canon(domains) == [] <==> domains == []
    ensures domains != [] ==> StripPrefix(Split(Canon(domains), '\n')) == domains
  {
    if domains != [] {
      var lines := CanonLines(domains);
      forall l | l in lines ensures '\n' !in l {
        var i :| 0 <= i < |lines| && lines[i] == l;
        assert domains[i] in domains;
      }
      SplitOfJoin(lines, '\n');
      assert Canon(domains)[0] == lines[0][0];
    }
  }
}
