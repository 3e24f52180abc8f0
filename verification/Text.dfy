/** Text primitives of the Rust standard library that the blocklist code is built from. */
module Text {
  import opened Base

  /** The Unicode White_Space property. */
  predicate IsWhitespace(c: char) {
    var n := c as int;
    (9 <= n <= 13) || n == 0x20 || n == 0x85 || n == 0xA0 || n == 0x1680 || (0x2000 <= n <= 0x200A)
    || n == 0x2028 || n == 0x2029 || n == 0x202F || n == 0x205F || n == 0x3000
  }

  function TrimStart(s: string): string {
    if s != [] && IsWhitespace(s[0]) then TrimStart(s[1..]) else s
  }

  function TrimEnd(s: string): string {
    if s != [] && IsWhitespace(s[|s| - 1]) then TrimEnd(s[..|s| - 1]) else s
  }

  function Trim(s: string): string {
    TrimEnd(TrimStart(s))
  }

  /** Lower case where the result is ASCII. Besides A to Z only the Kelvin sign (U+212A) has an
      ASCII lower case; other characters stay outside ASCII, which is all that matters here. */
  function LowerChar(c: char): char {
    if 'A' <= c <= 'Z' then c + (32 as char)
    else if c == '\U{212A}' then 'k'
    else c
  }

  function Lower(s: string): (r: string)
    ensures |r| == |s|
    ensures forall i :: 0 <= i < |s| ==> r[i] == LowerChar(s[i])
  {
    seq(|s|, i requires 0 <= i < |s| => LowerChar(s[i]))
  }

  /** The pieces of `s` between occurrences of `sep`; at least one piece. */
  function Split(s: string, sep: char): (r: seq<string>)
    ensures |r| >= 1
  {
    if s == [] then [[]]
    else
      var rest := Split(s[1..], sep);
      if s[0] == sep then [[]] + rest
      else [[s[0]] + rest[0]] + rest[1..]
  }

  function Join(parts: seq<string>, sep: char): string {
    if parts == [] then []
    else if |parts| == 1 then parts[0]
    else parts[0] + [sep] + Join(parts[1..], sep)
  }

  /** Drops one carriage return at the end of a line that a newline closed. */
  function ChompCr(line: string): string {
    if line != [] && line[|line| - 1] == '\r' then line[..|line| - 1] else line
  }

  /** Newline-closed lines with an optional carriage return, and what follows the last newline
      unless it is empty. */
  function Lines(s: string): seq<string> {
    LinesOf(Split(s, '\n'))
  }

  function LinesOf(pieces: seq<string>): seq<string>
    requires pieces != []
  {
    if |pieces| == 1 then (if pieces[0] == [] then [] else pieces)
    else [ChompCr(pieces[0])] + LinesOf(pieces[1..])
  }

  /** The maximal runs of non-blank characters. */
  function Words(s: string): seq<string>
    decreases |s|
  {
    var t := TrimStart(s);
    if t == [] then []
    else
      var n := WordLength(t);
      TrimStartShorter(s);
      [t[..n]] + Words(t[n..])
  }

  function WordLength(t: string): (n: nat)
    ensures n <= |t|
    ensures t != [] && !IsWhitespace(t[0]) ==> n > 0
    ensures forall i :: 0 <= i < n ==> !IsWhitespace(t[i])
    ensures n < |t| ==> IsWhitespace(t[n])
  {
    if t == [] || IsWhitespace(t[0]) then 0 else 1 + WordLength(t[1..])
  }

  lemma {:induction false} TrimStartShorter(s: string)
    ensures |TrimStart(s)| <= |s|
    ensures TrimStart(s) != [] ==> !IsWhitespace(TrimStart(s)[0])
  {
    if s != [] && IsWhitespace(s[0]) {
      TrimStartShorter(s[1..]);
    }
  }

  ghost predicate NoBlanks(s: string) {
    forall c :: c in s ==> !IsWhitespace(c)
  }

  lemma {:induction false} TrimKeepsNonBlank(s: string)
    requires s == [] || (!IsWhitespace(s[0]) && !IsWhitespace(s[|s| - 1]))
    ensures Trim(s) == s
  {
  }

  // -------------------------------------------------------------------------
  // Splitting and joining
  // -------------------------------------------------------------------------

  lemma {:induction false} JoinOfSplit(s: string, sep: char)
    ensures Join(Split(s, sep), sep) == s
    ensures forall p :: p in Split(s, sep) ==> sep !in p
    ensures |Split(s, sep)| == 1 ==> Split(s, sep)[0] == s
  {
    if s != [] {
      JoinOfSplit(s[1..], sep);
      var rest := Split(s[1..], sep);
      assert s == [s[0]] + s[1..];
      if s[0] == sep {
        JoinCons([], rest, sep);
      } else {
        JoinLonger(s[0], rest, sep);
        forall p | p in [[s[0]] + rest[0]] + rest[1..] ensures sep !in p {
          assert p in rest[1..] ==> p in rest;
        }
      }
    }
  }

  lemma {:induction false} JoinCons(first: string, rest: seq<string>, sep: char)
    requires rest != []
    ensures Join([first] + rest, sep) == first + [sep] + Join(rest, sep)
  {
    assert ([first] + rest)[1..] == rest;
  }

  /** One more character at the start of the first piece. */
  lemma {:induction false} JoinLonger(c: char, pieces: seq<string>, sep: char)
    requires pieces != []
    ensures Join([[c] + pieces[0]] + pieces[1..], sep) == [c] + Join(pieces, sep)
  {
    var longer := [[c] + pieces[0]] + pieces[1..];
    assert longer[1..] == pieces[1..];
    if |pieces| > 1 {
      var tail := Join(pieces[1..], sep);
      assert ([c] + pieces[0]) + [sep] + tail == [c] + (pieces[0] + [sep] + tail);
    }
  }

  lemma {:induction false} SplitOfJoin(parts: seq<string>, sep: char)
    requires parts != []
    requires forall p :: p in parts ==> sep !in p
    ensures Split(Join(parts, sep), sep) == parts
  {
    if |parts| == 1 {
      SplitNone(parts[0], sep);
    } else {
      SplitOfJoin(parts[1..], sep);
      SplitAfter(parts[0], sep, Join(parts[1..], sep));
      assert parts == [parts[0]] + parts[1..];
    }
  }

  lemma {:induction false} SplitNone(p: string, sep: char)
    requires sep !in p
    ensures Split(p, sep) == [p]
  {
    if p != [] {
      SplitNone(p[1..], sep);
      assert p == [p[0]] + p[1..];
    }
  }

  lemma {:induction false} SplitAfter(p: string, sep: char, rest: string)
    requires sep !in p
    ensures Split(p + [sep] + rest, sep) == [p] + Split(rest, sep)
  {
    if p == [] {
      assert p + [sep] + rest == [sep] + rest;
    } else {
      SplitAfter(p[1..], sep, rest);
      assert (p + [sep] + rest)[1..] == p[1..] + [sep] + rest;
      assert p == [p[0]] + p[1..];
    }
  }

  /** Every piece of `s` is made of characters of `s`. */
  lemma {:induction false} SplitChars(s: string, sep: char, c: char)
    ensures (exists p :: p in Split(s, sep) && c in p) ==> c in s
    ensures c in s && c != sep ==> exists p :: p in Split(s, sep) && c in p
  {
    if s != [] {
      SplitChars(s[1..], sep, c);
      var rest := Split(s[1..], sep);
      if s[0] != sep {
        assert forall p :: p in rest ==> p == rest[0] || p in rest[1..];
        assert Split(s, sep)[0] == [s[0]] + rest[0];
        forall p | p in rest && c in p ensures exists q :: q in Split(s, sep) && c in q {
          assert p == rest[0] ==> c in Split(s, sep)[0];
        }
        assert c == s[0] ==> c in Split(s, sep)[0];
      }
    }
  }

  /** `Split` one character at a time. */
  function Prepend(c: char, sep: char, pieces: seq<string>): seq<string>
    requires pieces != []
  {
    if c == sep then [[]] + pieces else [[c] + pieces[0]] + pieces[1..]
  }

  lemma {:induction false} PrependConcat(c: char, sep: char, a: seq<string>, b: seq<string>)
    requires a != []
    ensures Prepend(c, sep, a + b) == Prepend(c, sep, a) + b
  {
    assert (a + b)[1..] == a[1..] + b;
  }

  lemma {:induction false} SplitCons(c: char, s: string, sep: char)
    ensures Split([c] + s, sep) == Prepend(c, sep, Split(s, sep))
  {
    assert ([c] + s)[1..] == s;
  }

  lemma {:induction false} SplitConcat(a: string, sep: char, b: string)
    ensures Split(a + [sep] + b, sep) == Split(a, sep) + Split(b, sep)
  {
    if a == [] {
      SplitCons(sep, b, sep);
      assert a + [sep] + b == [sep] + b;
    } else {
      SplitConcat(a[1..], sep, b);
      var c, rest := a[0], a[1..] + [sep] + b;
      assert a + [sep] + b == [c] + rest && a == [c] + a[1..];
      SplitCons(c, rest, sep);
      SplitCons(c, a[1..], sep);
      PrependConcat(c, sep, Split(a[1..], sep), Split(b, sep));
    }
  }
}
