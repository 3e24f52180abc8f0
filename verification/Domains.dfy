/** The domain validator behind the whitelist and the domains-format reader, and the grammar
    it recognises: the host names of section 2.1 of RFC 1123, in lower case. */
module Domains {
  import opened Base
  import opened Text

  const MAX_DOMAIN_LEN: nat := 253

  predicate IsAsciiAlphanumeric(c: char) {
    'a' <= c <= 'z' || 'A' <= c <= 'Z' || '0' <= c <= '9'
  }

  /** The canonical form of an accepted entry. The length limit is in bytes; it is only ever
      the deciding check for ASCII text, where bytes and characters agree. */
  function ValidateDomain(raw: string): Option<string> {
    var trimmed := Lower(Trim(raw));
    if trimmed == [] then None
    else if |trimmed| > MAX_DOMAIN_LEN then None
    else if exists c :: c in trimmed && IsWhitespace(c) then None
    else if '/' in trimmed || '\\' in trimmed then None
    else if trimmed[0] == '.' then None
    else if '*' in trimmed then None
    else if exists c :: c in trimmed && !(IsAsciiAlphanumeric(c) || c == '-' || c == '.') then None
    else if trimmed[0] == '-' then None
    else if trimmed[|trimmed| - 1] == '.' then None
    else if exists l :: l in Split(trimmed, '.') && (l == [] || l[0] == '-' || l[|l| - 1] == '-') then None
    else Some(trimmed)
  }

  // -------------------------------------------------------------------------
  // The grammar
  // -------------------------------------------------------------------------

  predicate LetterDigit(c: char) {
    'a' <= c <= 'z' || '0' <= c <= '9'
  }

  /** A nonempty run of letters, digits and inner hyphens. */
  ghost predicate IsLabel(l: string) {
    && l != []
    && (forall c :: c in l ==> LetterDigit(c) || c == '-')
    && l[0] != '-' && l[|l| - 1] != '-'
  }

  ghost predicate IsHostname(t: string) {
    1 <= |t| <= 253 &&
    exists labels: seq<string> :: labels != [] && t == Join(labels, '.') && forall l :: l in labels ==> IsLabel(l)
  }

  /** The labels of a host name are its pieces between dots. */
  lemma {:induction false} HostnameLabels(t: string)
    ensures IsHostname(t) <==> 1 <= |t| <= MAX_DOMAIN_LEN && forall l :: l in Split(t, '.') ==> IsLabel(l)
  {
    if IsHostname(t) {
      var labels: seq<string> :| labels != [] && t == Join(labels, '.') && forall l :: l in labels ==> IsLabel(l);
      SplitOfJoin(labels, '.');
    }
    JoinOfSplit(t, '.');
  }

  lemma {:induction false} HostnameChars(t: string)
    requires IsHostname(t)
    ensures forall c :: c in t ==> LetterDigit(c) || c == '-' || c == '.'
  {
    HostnameLabels(t);
    forall c | c in t ensures LetterDigit(c) || c == '-' || c == '.' {
      SplitChars(t, '.', c);
    }
  }

  /** First and last character of `s` belong to its first and last piece. */
  lemma {:induction false} SplitEnds(s: string, sep: char)
    requires s != []
    ensures var pieces := Split(s, sep);
      && (pieces[0] == [] <==> s[0] == sep)
      && (pieces[0] != [] ==> pieces[0][0] == s[0])
      && (pieces[|pieces| - 1] == [] <==> s[|s| - 1] == sep)
      && (pieces[|pieces| - 1] != [] ==> var p := pieces[|pieces| - 1]; p[|p| - 1] == s[|s| - 1])
  {
    if |s| == 1 {
      assert Split(s[1..], sep) == [[]];
    } else {
      SplitEnds(s[1..], sep);
      assert s[1..][|s| - 2] == s[|s| - 1];
      var rest := Split(s[1..], sep);
      if s[0] == sep {
        assert Split(s, sep) == [[]] + rest;
      } else {
        assert Split(s, sep) == [[s[0]] + rest[0]] + rest[1..];
      }
    }
  }

  lemma {:induction false} LowerIsFixed(s: string)
    requires forall c :: c in s ==> !('A' <= c <= 'Z') && c != '\U{212A}'
    ensures Lower(s) == s
  {
    assert forall i :: 0 <= i < |s| ==> s[i] in s;
  }

  lemma {:induction false} LowerOutput(s: string)
    ensures forall c :: c in Lower(s) ==> !('A' <= c <= 'Z') && c != '\U{212A}'
  {
  }

  /** Lower-case text passes the chain of checks exactly when it is a host name. */
  lemma {:induction false} ChecksAreGrammar(t: string)
    requires forall c :: c in t ==> !('A' <= c <= 'Z')
    ensures IsHostname(t) <==>
      && t != [] && |t| <= MAX_DOMAIN_LEN
      && !(exists c :: c in t && !(IsAsciiAlphanumeric(c) || c == '-' || c == '.'))
      && !(exists l :: l in Split(t, '.') && (l == [] || l[0] == '-' || l[|l| - 1] == '-'))
  {
    HostnameLabels(t);
    if IsHostname(t) {
      HostnameChars(t);
    }
    if !(exists c :: c in t && !(IsAsciiAlphanumeric(c) || c == '-' || c == '.')) {
      JoinOfSplit(t, '.');
      forall l, c | l in Split(t, '.') && c in l ensures LetterDigit(c) || c == '-' {
        SplitChars(t, '.', c);
      }
    }
  }

  /** The whole chain accepts exactly the raw texts whose trimmed lower case is a host name,
      and returns that form. */
  lemma {:induction false} ValidatorIsGrammar(raw: string, t: string)
    ensures ValidateDomain(raw) == Some(t) <==> t == Lower(Trim(raw)) && IsHostname(t)
  {
    var trimmed := Lower(Trim(raw));
    LowerOutput(Trim(raw));
    ChecksAreGrammar(trimmed);
    if IsHostname(trimmed) {
      HostnameChars(trimmed);
      HostnameLabels(trimmed);
      SplitEnds(trimmed, '.');
      var pieces := Split(trimmed, '.');
      assert pieces[0] in pieces && pieces[|pieces| - 1] in pieces;
    }
  }

  /** A host name is its own canonical form. */
  lemma {:induction false} HostnameIsCanonical(t: string)
    requires IsHostname(t)
    ensures ValidateDomain(t) == Some(t)
  {
    HostnameChars(t);
    assert t[0] in t && t[|t| - 1] in t;
    TrimKeepsNonBlank(t);
    LowerIsFixed(t);
    ValidatorIsGrammar(t, t);
  }

  /** Validating an accepted entry again changes nothing. */
  lemma {:induction false} ValidatorIdempotent(raw: string)
    requires ValidateDomain(raw).Some?
    ensures ValidateDomain(ValidateDomain(raw).value) == ValidateDomain(raw)
  {
    ValidatorIsGrammar(raw, ValidateDomain(raw).value);
    HostnameIsCanonical(ValidateDomain(raw).value);
  }
}
