/** Texts as words with white space around them: what trimming and splitting into words give. */
module Spacing {
  import opened Base
  import opened Text

  ghost predicate AllBlank(s: string) {
    forall c :: c in s ==> IsWhitespace(c)
  }

  ghost predicate IsWord(w: string) {
    w != [] && NoBlanks(w)
  }

  /** White space before, between and behind the words; only that between two words must be there. */
  ghost predicate Spaces(gaps: seq<string>, words: seq<string>) {
    && |gaps| == |words| + 1
    && (forall g :: g in gaps ==> AllBlank(g))
    && (forall i :: 0 < i < |words| ==> gaps[i] != [])
    && (forall w :: w in words ==> IsWord(w))
  }

  function Spaced(gaps: seq<string>, words: seq<string>): string
    requires |gaps| == |words| + 1
  {
    if words == [] then gaps[0] else gaps[0] + (words[0] + Spaced(gaps[1..], words[1..]))
  }

  lemma {:induction false} SpacesOfRest(gaps: seq<string>, words: seq<string>)
    requires Spaces(gaps, words) && words != []
    ensures Spaces(gaps[1..], words[1..]) && AllBlank(gaps[0]) && IsWord(words[0])
    ensures |words| > 1 ==> gaps[1] != []
  {
    assert gaps[0] in gaps && words[0] in words;
  }

  /** What follows a word is nothing or starts with white space. */
  ghost predicate StartsBlank(s: string) {
    s == [] || IsWhitespace(s[0])
  }

  lemma {:induction false} BlankOrWord(gaps: seq<string>, words: seq<string>)
    requires Spaces(gaps, words) && (words != [] ==> gaps[0] != [])
    ensures StartsBlank(Spaced(gaps, words))
  {
    assert gaps[0] in gaps;
    if gaps[0] != [] {
      assert gaps[0][0] in gaps[0];
      assert Spaced(gaps, words)[0] == gaps[0][0];
    }
  }

  // -------------------------------------------------------------------------
  // Trimming
  // -------------------------------------------------------------------------

  lemma {:induction false} TrimStartSkips(gap: string, s: string)
    requires AllBlank(gap)
    ensures TrimStart(gap + s) == TrimStart(s)
  {
    if gap == [] {
      assert gap + s == s;
    } else {
      assert gap[0] in gap && (gap + s)[1..] == gap[1..] + s;
      TrimStartSkips(gap[1..], s);
    }
  }

  lemma {:induction false} TrimEndSkips(s: string, gap: string)
    requires AllBlank(gap)
    ensures TrimEnd(s + gap) == TrimEnd(s)
  {
    if gap == [] {
      assert s + gap == s;
    } else {
      assert gap[|gap| - 1] in gap && (s + gap)[..|s + gap| - 1] == s + gap[..|gap| - 1];
      TrimEndSkips(s, gap[..|gap| - 1]);
    }
  }

  lemma {:induction false} TrimBlank(gap: string)
    requires AllBlank(gap)
    ensures TrimStart(gap) == [] && TrimEnd(gap) == []
  {
    TrimStartSkips(gap, []);
    TrimEndSkips([], gap);
    assert gap + [] == gap && [] + gap == gap;
  }

  /** No white space at either end. */
  ghost predicate Trimmed(t: string) {
    t != [] ==> !IsWhitespace(t[0]) && !IsWhitespace(t[|t| - 1])
  }

  /** Trimming finds what is left between the white space at both ends. */
  lemma {:induction false} TrimOf(left: string, t: string, right: string)
    requires AllBlank(left) && AllBlank(right) && Trimmed(t)
    ensures Trim(left + t + right) == t
  {
    assert left + t + right == left + (t + right);
    TrimStartSkips(left, t + right);
    if t == [] {
      assert t + right == right;
      TrimBlank(right);
    } else {
      assert (t + right)[0] == t[0];
      TrimEndSkips(t, right);
    }
  }

  /** And there is always such a way to cut a text. */
  lemma {:induction false} TrimCuts(s: string) returns (left: string, right: string)
    ensures s == left + Trim(s) + right && AllBlank(left) && AllBlank(right) && Trimmed(Trim(s))
  {
    var from := StartCut(s);
    var to := EndCut(TrimStart(s));
    left, right := s[..from], TrimStart(s)[to..];
    assert s == s[..from] + s[from..];
    assert TrimStart(s) == TrimStart(s)[..to] + TrimStart(s)[to..];
    TrimStartShorter(s);
  }

  lemma {:induction false} StartCut(s: string) returns (n: nat)
    ensures n <= |s| && TrimStart(s) == s[n..] && AllBlank(s[..n])
  {
    n := 0;
    if s != [] && IsWhitespace(s[0]) {
      n := StartCut(s[1..]);
      assert s[1..][n..] == s[n + 1..] && s[..n + 1] == [s[0]] + s[1..][..n];
      n := n + 1;
    }
  }

  lemma {:induction false} EndCut(s: string) returns (n: nat)
    ensures n <= |s| && TrimEnd(s) == s[..n] && AllBlank(s[n..]) && (n > 0 ==> !IsWhitespace(s[n - 1]))
  {
    n := |s|;
    if s != [] && IsWhitespace(s[|s| - 1]) {
      var front := s[..|s| - 1];
      n := EndCut(front);
      assert front[..n] == s[..n] && s[n..] == front[n..] + [s[|s| - 1]];
    }
  }

  // -------------------------------------------------------------------------
  // Words
  // -------------------------------------------------------------------------

  lemma {:induction false} WordLengthOf(a: string, rest: string)
    requires NoBlanks(a) && StartsBlank(rest)
    ensures WordLength(a + rest) == |a|
  {
    if a == [] {
      assert a + rest == rest;
    } else {
      assert (a + rest)[1..] == a[1..] + rest && (a + rest)[0] == a[0];
      assert a[0] in a;
      WordLengthOf(a[1..], rest);
    }
  }

  lemma {:induction false} FirstWord(gap: string, w: string, rest: string)
    requires AllBlank(gap) && IsWord(w) && StartsBlank(rest)
    ensures TrimStart(gap + (w + rest)) == w + rest && Words(gap + (w + rest)) == [w] + Words(rest)
  {
    TrimStartSkips(gap, w + rest);
    assert w[0] in w && (w + rest)[0] == w[0];
    WordLengthOf(w, rest);
    assert (w + rest)[..|w|] == w && (w + rest)[|w|..] == rest;
  }

  /** The words of a spaced text are the words it is made of. */
  lemma {:induction false} WordsOfSpaced(gaps: seq<string>, words: seq<string>)
    requires Spaces(gaps, words)
    ensures Words(Spaced(gaps, words)) == words
  {
    if words == [] {
      assert gaps[0] in gaps;
      TrimBlank(gaps[0]);
    } else {
      SpacesOfRest(gaps, words);
      WordsOfSpaced(gaps[1..], words[1..]);
      BlankOrWord(gaps[1..], words[1..]);
      FirstWord(gaps[0], words[0], Spaced(gaps[1..], words[1..]));
      assert words == [words[0]] + words[1..];
    }
  }

  lemma {:induction false} OneMoreWord(gap: string, w: string, gaps: seq<string>, words: seq<string>)
    requires Spaces(gaps, words) && AllBlank(gap) && IsWord(w) && (words != [] ==> gaps[0] != [])
    ensures Spaces([gap] + gaps, [w] + words)
    ensures Spaced([gap] + gaps, [w] + words) == gap + (w + Spaced(gaps, words))
  {
    assert ([gap] + gaps)[1..] == gaps && ([w] + words)[1..] == words;
  }

  lemma {:induction false} StartsWithWord(gaps: seq<string>, words: seq<string>)
    requires Spaces(gaps, words) && words != [] && gaps[0] == []
    ensures !StartsBlank(Spaced(gaps, words))
  {
    SpacesOfRest(gaps, words);
    assert words[0][0] in words[0] && Spaced(gaps, words)[0] == words[0][0];
  }

  lemma {:induction false} WordsFrom(s: string) returns (gap: string, w: string, rest: string)
    requires TrimStart(s) != []
    ensures s == gap + (w + rest) && AllBlank(gap) && IsWord(w) && StartsBlank(rest) && |rest| < |s|
    ensures Words(s) == [w] + Words(rest)
  {
    var from := StartCut(s);
    TrimStartShorter(s);
    var n := WordLength(s[from..]);
    gap, w, rest := s[..from], s[from..][..n], s[from..][n..];
    assert s[from..] == w + rest && s == gap + s[from..];
  }

  /** And every text is made of its words. */
  lemma {:induction false} SpacedByWords(s: string) returns (gaps: seq<string>)
    ensures Spaces(gaps, Words(s)) && s == Spaced(gaps, Words(s))
    decreases |s|
  {
    if TrimStart(s) == [] {
      var n := StartCut(s);
      gaps := [s];
      assert n == |s| && s[..n] == s;
    } else {
      var gap, w, rest := WordsFrom(s);
      gaps := SpacedByWords(rest);
      if Words(rest) != [] && gaps[0] == [] {
        StartsWithWord(gaps, Words(rest));
      }
      OneMoreWord(gap, w, gaps, Words(rest));
      gaps := [gap] + gaps;
    }
  }

  lemma {:induction false} NoWordsInBlank(s: string)
    requires AllBlank(s)
    ensures Words(s) == []
  {
    TrimBlank(s);
  }

  lemma {:induction false} WordsThenBlank(s: string, right: string)
    requires AllBlank(right)
    ensures Words(s + right) == Words(s)
    decreases |s|
  {
    if TrimStart(s) == [] {
      var n := StartCut(s);
      assert s[..n] == s;
      NoWordsInBlank(s + right);
    } else {
      var gap, w, rest := WordsFrom(s);
      assert s + right == gap + (w + (rest + right));
      WordsThenBlank(rest, right);
      FirstWord(gap, w, rest + right);
    }
  }

  /** White space at both ends adds no words. */
  lemma {:induction false} WordsPadded(left: string, s: string, right: string)
    requires AllBlank(left) && AllBlank(right)
    ensures Words(left + s + right) == Words(s)
  {
    WordsThenBlank(left + s, right);
    TrimStartSkips(left, s);
  }

  // -------------------------------------------------------------------------
  // Lines with a comment
  // -------------------------------------------------------------------------

  /** Nothing, or a comment sign and anything. */
  ghost predicate IsRemark(tail: string) {
    tail != [] ==> tail[0] == '#'
  }

  /** A line is words between white space and a remark; the first comment sign starts it. */
  ghost predicate IsLine(gaps: seq<string>, words: seq<string>, tail: string) {
    Spaces(gaps, words) && '#' !in Spaced(gaps, words) && IsRemark(tail)
  }

  lemma {:induction false} EveryLine(line: string) returns (gaps: seq<string>, words: seq<string>, tail: string)
    ensures IsLine(gaps, words, tail) && line == Spaced(gaps, words) + tail
  {
    var n := BeforeRemark(line);
    words, tail := Words(line[..n]), line[n..];
    gaps := SpacedByWords(line[..n]);
    assert line == line[..n] + line[n..];
  }

  lemma {:induction false} BeforeRemark(line: string) returns (n: nat)
    ensures n <= |line| && '#' !in line[..n] && IsRemark(line[n..])
  {
    n := 0;
    if line != [] && line[0] != '#' {
      n := BeforeRemark(line[1..]);
      assert line[..n + 1] == [line[0]] + line[1..][..n] && line[n + 1..] == line[1..][n..];
      n := n + 1;
    }
  }

  lemma {:induction false} TrimStartBefore(s: string, tail: string)
    requires !StartsBlank(tail)
    ensures TrimStart(s + tail) == TrimStart(s) + tail
  {
    if s == [] {
      assert s + tail == tail;
    } else {
      assert (s + tail)[0] == s[0] && (s + tail)[1..] == s[1..] + tail;
      if IsWhitespace(s[0]) {
        TrimStartBefore(s[1..], tail);
      }
    }
  }

  lemma {:induction false} TrimEndBehind(s: string, tail: string)
    requires !StartsBlank(tail)
    ensures TrimEnd(s + tail) == s + TrimEnd(tail) && TrimEnd(tail) != [] && TrimEnd(tail)[0] == tail[0]
  {
    assert (s + tail)[|s + tail| - 1] == tail[|tail| - 1];
    if IsWhitespace(tail[|tail| - 1]) {
      assert (s + tail)[..|s + tail| - 1] == s + tail[..|tail| - 1];
      TrimEndBehind(s, tail[..|tail| - 1]);
    }
  }

  lemma {:induction false} FirstPiece(front: string, behind: string)
    requires '#' !in front && behind != [] && behind[0] == '#'
    ensures Split(front + behind, '#')[0] == front
  {
    SplitAfter(front, '#', behind[1..]);
    assert front + behind == front + ['#'] + behind[1..];
  }

  /** Trimming a line and cutting it at the comment sign leaves what is before it, up to white
      space. */
  lemma {:induction false} BodyOfTrimmed(body: string, tail: string) returns (left: string, right: string)
    requires '#' !in body && IsRemark(tail)
    ensures body == left + Split(Trim(body + tail), '#')[0] + right && AllBlank(left) && AllBlank(right)
  {
    if tail == [] {
      left, right := TrimCuts(body);
      assert body + tail == body;
      NoneInside(left, Trim(body), right, '#');
      SplitNone(Trim(body), '#');
    } else {
      var n := StartCut(body);
      left, right := body[..n], [];
      TrimStartBefore(body, tail);
      TrimEndBehind(body[n..], tail);
      assert '#' !in body[n..] by { NoneInside(left, body[n..], [], '#'); }
      FirstPiece(body[n..], TrimEnd(tail));
      assert body == left + body[n..] + right;
    }
  }

  lemma {:induction false} NoneInside(left: string, s: string, right: string, c: char)
    requires c !in left + s + right
    ensures c !in s
  {
    forall i | 0 <= i < |s| ensures s[i] != c {
      assert (left + s + right)[|left| + i] == s[i];
    }
  }

  /** What the line parsers look at: the trimmed line, and the words of it before the comment sign. */
  lemma {:induction false} LineParts(gaps: seq<string>, words: seq<string>, tail: string)
    requires IsLine(gaps, words, tail)
    ensures var t := Trim(Spaced(gaps, words) + tail);
      && (words == [] ==> t == Trim(tail) && (tail == [] ==> t == []) && (tail != [] ==> t != [] && t[0] == '#'))
      && (words != [] ==> t != [] && t[0] != '#' && Trim(Split(t, '#')[0]) != []
                          && Words(Trim(Split(t, '#')[0])) == words)
  {
    var body := Spaced(gaps, words);
    if words == [] {
      assert gaps[0] in gaps;
      TrimStartSkips(body, tail);
      if tail != [] {
        TrimEndBehind([], tail);
        assert [] + tail == tail;
      }
    } else {
      SpacesOfRest(gaps, words);
      var rest := Spaced(gaps[1..], words[1..]) + tail;
      assert body + tail == gaps[0] + (words[0] + rest);
      TrimStartSkips(gaps[0], words[0] + rest);
      assert words[0][0] in words[0] && (words[0] + rest)[0] == words[0][0];
      assert body[|gaps[0]|] == words[0][0];
      TrimEndBehind([], words[0] + rest);
      assert [] + (words[0] + rest) == words[0] + rest;
      WordsBeforeRemark(gaps, words, tail);
    }
  }

  lemma {:induction false} WordsBeforeRemark(gaps: seq<string>, words: seq<string>, tail: string)
    requires IsLine(gaps, words, tail)
    ensures Words(Trim(Split(Trim(Spaced(gaps, words) + tail), '#')[0])) == words
  {
    var body := Spaced(gaps, words);
    var left, right := BodyOfTrimmed(body, tail);
    var b := Split(Trim(body + tail), '#')[0];
    WordsPadded(left, b, right);
    var l, r := TrimCuts(b);
    WordsPadded(l, Trim(b), r);
    WordsOfSpaced(gaps, words);
  }

  /** Two words on a line of their own. */
  lemma {:induction false} PairIsLine(a: string, b: string)
    requires IsWord(a) && IsWord(b) && '#' !in a && '#' !in b
    ensures IsLine([[], " ", []], [a, b], []) && Spaced([[], " ", []], [a, b]) + [] == a + " " + b
  {
    var gaps, words := [[], " ", []], [a, b];
    assert gaps[1..][1..] == [[]] && words[1..][1..] == [] && gaps[1..][0] == " " && words[1..][0] == b;
    assert Spaced(gaps[1..][1..], words[1..][1..]) == [];
    assert b + [] == b && Spaced(gaps[1..], words[1..]) == " " + b;
    assert Spaced(gaps, words) == a + (" " + b);
  }
}
