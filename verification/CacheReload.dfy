/** A fetch parses in the source's own format and caches canonical hosts text; a reload parses
    that text as a hosts file. This module says exactly what survives the detour. */
module CacheReload {
  import opened Base
  import opened Text
  import opened Spacing
  import opened Domains
  import opened AdBlockModel
  import opened Blocklist

  /** A nonempty lower-case word with no comment sign in it. */
  ghost predicate Token(d: string) {
    d != [] && NoBlanks(d) && '#' !in d && Lower(d) == d
  }

  lemma {:induction false} PairReads(isIp: string -> bool, ip: string, d: string)
    requires IsWord(ip) && '#' !in ip && isIp(ip) && Token(d)
    ensures HostsLine(isIp, ip + " " + d) == if IsValidDomain(d) then Accepted([d]) else Rejected
  {
    PairIsLine(ip, d);
    HostsLineIff(isIp, [[], " ", []], [ip, d], []);
    assert [ip, d][1..] == [d] && LowerAll([d]) == [d];
  }

  /** How a reload reads one canonical line: it applies the hosts parser's own idea of a
      valid domain. */
  lemma {:induction false} CanonLineReadsBack(isIp: string -> bool, d: string)
    requires isIp("0.0.0.0") && Token(d)
    ensures HostsLine(isIp, PREFIX + d) == if IsValidDomain(d) then Accepted([d]) else Rejected
  {
    PairReads(isIp, "0.0.0.0", d);
    assert PREFIX + d == "0.0.0.0" + " " + d;
  }

  lemma {:induction false} LinesOfTokens(pieces: seq<string>)
    requires pieces != []
    requires forall p :: p in pieces ==> p != [] && !IsWhitespace(p[|p| - 1])
    ensures LinesOf(pieces) == pieces
  {
    assert pieces[0] in pieces;
    if |pieces| > 1 {
      LinesOfTokens(pieces[1..]);
      assert pieces == [pieces[0]] + pieces[1..];
    }
  }

  lemma {:induction false} CanonHasItsLines(ds: seq<string>)
    requires forall d :: d in ds ==> Token(d)
    ensures Lines(Canon(ds)) == CanonLines(ds)
  {
    var lines := CanonLines(ds);
    if ds == [] {
      assert Split([], '\n') == [[]];
    } else {
      forall l | l in lines ensures '\n' !in l && l != [] && !IsWhitespace(l[|l| - 1]) {
        var i :| 0 <= i < |lines| && lines[i] == l;
        var d := ds[i];
        assert d in ds && d[|d| - 1] in d && l[|l| - 1] == d[|d| - 1];
      }
      SplitOfJoin(lines, '\n');
      LinesOfTokens(lines);
    }
  }

  lemma {:induction false} LinesReadBack(read: string -> Line, keep: string -> bool, ds: seq<string>)
    requires forall d :: d in ds ==> read(PREFIX + d) == if keep(d) then Accepted([d]) else Rejected
    ensures var again := ParseLines(read, CanonLines(ds));
      again.domains == Filter(keep, ds) && again.errors == |ds| - |again.domains|
  {
    if ds != [] {
      var rest, d := ds[..|ds| - 1], ds[|ds| - 1];
      LinesReadBack(read, keep, rest);
      assert ds == rest + [d] && CanonLines(ds) == CanonLines(rest) + [PREFIX + d];
      ParseLinesSnoc(read, CanonLines(rest), PREFIX + d);
      FilterSnoc(keep, rest, d);
    }
  }

  lemma {:induction false} CanonLinesReadBack(isIp: string -> bool, ds: seq<string>)
    requires isIp("0.0.0.0") && forall d :: d in ds ==> Token(d)
    ensures var again := ParseLines(Reader(isIp, Format.Hosts), CanonLines(ds));
      again.domains == Filter(IsValidDomain, ds) && again.errors == |ds| - |again.domains|
  {
    forall d | d in ds ensures HostsLine(isIp, PREFIX + d) == if IsValidDomain(d) then Accepted([d]) else Rejected {
      CanonLineReadsBack(isIp, d);
    }
    LinesReadBack(Reader(isIp, Format.Hosts), IsValidDomain, ds);
  }

  // -------------------------------------------------------------------------
  // What either reader accepts
  // -------------------------------------------------------------------------

  lemma {:induction false} SplitLower(s: string)
    ensures Split(Lower(s), '.') == LowerAll(Split(s, '.'))
  {
    if s == [] {
      assert Lower(s) == [];
      assert LowerAll([[]]) == [[]];
    } else {
      var c, rest := s[0], s[1..];
      SplitLower(rest);
      assert s == [c] + rest && Lower(s) == [LowerChar(c)] + Lower(rest);
      SplitCons(c, rest, '.');
      SplitCons(LowerChar(c), Lower(rest), '.');
      LowerPrepend(c, Split(rest, '.'));
    }
  }

  lemma {:induction false} LowerPrepend(c: char, pieces: seq<string>)
    requires pieces != []
    ensures LowerAll(Prepend(c, '.', pieces)) == Prepend(LowerChar(c), '.', LowerAll(pieces))
  {
    if c != '.' {
      assert Lower([c] + pieces[0]) == [LowerChar(c)] + Lower(pieces[0]);
    } else {
      assert Lower([]) == [];
    }
  }

  lemma {:induction false} LowerChars(d: string)
    requires forall c :: c in d ==> IsAsciiAlphanumeric(c) || c == '-' || c == '.'
    ensures forall c :: c in Lower(d) ==> IsAsciiAlphanumeric(c) || c == '-' || c == '.'
    ensures '#' !in Lower(d) && Lower(Lower(d)) == Lower(d)
    ensures Numeric(Lower(d)) ==> Numeric(d)
  {
    LowerOutput(d);
    LowerIsFixed(Lower(d));
    assert forall i :: 0 <= i < |d| ==> d[i] in d && LowerChar(d[i]) == Lower(d)[i] && Lower(d)[i] in Lower(d);
  }

  lemma {:induction false} LowerLabels(d: string)
    requires forall l :: l in Split(d, '.') ==> l != [] && l[0] != '-' && l[|l| - 1] != '-'
    ensures forall l :: l in Split(Lower(d), '.') ==> l != [] && l[0] != '-' && l[|l| - 1] != '-'
  {
    SplitLower(d);
    forall l | l in Split(Lower(d), '.') ensures l != [] && l[0] != '-' && l[|l| - 1] != '-' {
      var k :| 0 <= k < |Split(Lower(d), '.')| && Split(Lower(d), '.')[k] == l;
      assert Split(d, '.')[k] in Split(d, '.');
    }
  }

  /** Lower case turns a valid domain into a valid domain. */
  lemma {:induction false} ValidStaysValid(d: string)
    requires IsValidDomain(d)
    ensures IsValidDomain(Lower(d)) && Token(Lower(d))
  {
    LowerChars(d);
    LowerLabels(d);
    assert d[0] in d && d[|d| - 1] in d;
    var l := Lower(d);
    assert l[0] == LowerChar(d[0]) && l[|l| - 1] == LowerChar(d[|d| - 1]);
  }

  /** A host name is a valid hosts-file domain unless it is all digits and dots. */
  lemma {:induction false} HostnameIsValidUnlessNumeric(t: string)
    requires IsHostname(t)
    ensures Token(t) && (IsValidDomain(t) <==> !Numeric(t))
  {
    HostnameChars(t);
    HostnameLabels(t);
    LowerIsFixed(t);
    SplitEnds(t, '.');
    var pieces := Split(t, '.');
    assert pieces[0] in pieces && pieces[|pieces| - 1] in pieces;
  }

  lemma {:induction false} AcceptedHostsLine(isIp: string -> bool, line: string) returns (names: seq<string>)
    requires HostsLine(isIp, line).Accepted?
    ensures HostsLine(isIp, line).domains == LowerAll(names)
    ensures forall n :: n in names ==> IsValidDomain(n)
  {
    names := Words(Trim(Split(Trim(line), '#')[0]))[1..];
  }

  lemma {:induction false} LoweredNamesAreTokens(names: seq<string>)
    requires forall n :: n in names ==> IsValidDomain(n)
    ensures forall d :: d in LowerAll(names) ==> Token(d) && IsValidDomain(d)
  {
    forall d | d in LowerAll(names) ensures Token(d) && IsValidDomain(d) {
      var i :| 0 <= i < |names| && LowerAll(names)[i] == d;
      assert names[i] in names;
      ValidStaysValid(names[i]);
    }
  }

  lemma {:induction false} ValidIsNotNumeric(d: string)
    requires IsValidDomain(d)
    ensures !Numeric(d)
  {
  }

  lemma {:induction false} AcceptedDomainLine(line: string)
    requires DomainLine(line).Accepted?
    ensures forall d :: d in DomainLine(line).domains ==> Token(d) && (IsValidDomain(d) <==> !Numeric(d))
  {
    var d := DomainLine(line).domains[0];
    ValidatorIsGrammar(Candidate(line), d);
    HostnameIsValidUnlessNumeric(d);
  }

  lemma {:induction false} AcceptedDomains(isIp: string -> bool, format: Format, lines: seq<string>)
    ensures forall d :: d in ParseLines(Reader(isIp, format), lines).domains ==>
              Token(d) && (IsValidDomain(d) <==> !Numeric(d)) && (format.Hosts? ==> IsValidDomain(d))
  {
    if lines != [] {
      var line := lines[|lines| - 1];
      AcceptedDomains(isIp, format, lines[..|lines| - 1]);
      var read := Reader(isIp, format)(line);
      if read.Accepted? {
        forall d | d in read.domains
          ensures Token(d) && (IsValidDomain(d) <==> !Numeric(d)) && (format.Hosts? ==> IsValidDomain(d))
        {
          if format.Hosts? {
            var names := AcceptedHostsLine(isIp, line);
            LoweredNamesAreTokens(names);
            ValidIsNotNumeric(d);
          } else {
            AcceptedDomainLine(line);
          }
        }
      }
    }
  }

  // -------------------------------------------------------------------------
  // The detour
  // -------------------------------------------------------------------------

  lemma {:induction false} FilterAgrees<T(!new)>(p: T -> bool, q: T -> bool, s: seq<T>)
    requires forall x :: x in s ==> p(x) == q(x)
    ensures Filter(p, s) == Filter(q, s)
    ensures Filter(p, s) == s <==> forall x :: x in s ==> p(x)
  {
    if s != [] {
      FilterAgrees(p, q, s[1..]);
      assert s == [s[0]] + s[1..];
      if !p(s[0]) {
        assert |Filter(p, s)| < |s|;
      }
    }
  }

  /** Of the domains a fetch records, a reload loads those that are not all digits and dots,
      in the same order, and silently rejects the rest. So the loaded rules are the recorded
      ones if and only if no recorded domain is numeric; hosts-format sources always qualify. */
  lemma {:induction false} ReloadDropsNumericDomains(isIp: string -> bool, format: Format, content: string)
    requires isIp("0.0.0.0")
    ensures var recorded := ParseBlocklist(isIp, format, content).domains;
      var reloaded := ParseBlocklist(isIp, Format.Hosts, Canon(recorded));
      && reloaded.domains == Filter(d => !Numeric(d), recorded)
      && reloaded.errors == |recorded| - |reloaded.domains|
      && (reloaded.domains == recorded <==> forall d :: d in recorded ==> !Numeric(d))
      && (format.Hosts? ==> reloaded == Parse(recorded, 0))
  {
    var recorded := ParseBlocklist(isIp, format, content).domains;
    AcceptedDomains(isIp, format, Lines(content));
    CanonHasItsLines(recorded);
    CanonLinesReadBack(isIp, recorded);
    FilterAgrees(IsValidDomain, d => !Numeric(d), recorded);
  }

  /** A host name alone on its line reads as itself. */
  lemma {:induction false} HostnameLine(t: string)
    requires IsHostname(t)
    ensures Lines(t) == [t] && DomainLine(t) == Accepted([t])
  {
    HostnameChars(t);
    HostnameIsCanonical(t);
    assert t[0] in t && t[|t| - 1] in t;
    SplitNone(t, '\n');
    SplitNone(t, '#');
    TrimKeepsNonBlank(t);
  }

  /** The difference is real: a domains list with the single line `1.2.3.4` is recorded as one
      rule, and a reload loads none. */
  lemma {:induction false} NumericDomainIsLost(isIp: string -> bool)
    requires isIp("0.0.0.0")
    ensures ParseBlocklist(isIp, Format.Domains, "1.2.3.4") == Parse(["1.2.3.4"], 0)
    ensures ParseBlocklist(isIp, Format.Hosts, Canon(["1.2.3.4"])) == Parse([], 1)
  {
    var t := "1.2.3.4";
    NumericSampleIsHostname();
    HostnameLine(t);
    OneLine(Reader(isIp, Format.Domains), t);
    ReloadDropsNumericDomains(isIp, Format.Domains, t);
    NumericSampleIsFiltered();
  }

  lemma {:induction false} OneLine(read: string -> Line, line: string)
    requires read(line).Accepted?
    ensures ParseLines(read, [line]) == Parse(read(line).domains, 0)
  {
    assert [line][..0] == [];
  }

  lemma {:induction false} NumericSampleIsFiltered()
    ensures Filter(d => !Numeric(d), ["1.2.3.4"]) == []
  {
    assert ["1.2.3.4"][1..] == [];
  }

  lemma {:induction false} NumericSampleIsHostname()
    ensures IsHostname("1.2.3.4")
  {
    var labels := ["1", "2", "3", "4"];
    assert Join(labels[3..], '.') == "4";
    assert Join(labels[2..], '.') == "3.4" by { assert labels[2..][1..] == labels[3..]; }
    assert Join(labels[1..], '.') == "2.3.4" by { assert labels[1..][1..] == labels[2..]; }
    assert Join(labels, '.') == "1.2.3.4";
    assert forall l :: l in labels ==> IsLabel(l);
  }
}
