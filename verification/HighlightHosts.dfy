/** Hosts-line highlighting: tokens wrapped in spans, from which the line can be read back. */
module HighlightHosts {
  import opened Base
  import opened Escape

  datatype Kind = Comment | Ip | Domain | Blank

  datatype Token = Token(kind: Kind, text: string)

  // -------------------------------------------------------------------------
  // Rendering
  // -------------------------------------------------------------------------

  function ClassOf(kind: Kind): string {
    match kind
    case Comment => "hosts-token-comment"
    case Ip => "hosts-token-ip"
    case Domain => "hosts-token-domain"
    case Blank => ""
  }

  function OpenTag(class_: string): string {
    "<span class=\"" + class_ + "\">"
  }

  const CLOSE_TAG := "</span>"

  function Span(kind: Kind, text: string): string {
    OpenTag(ClassOf(kind)) + EscapeHtml(text) + CLOSE_TAG
  }

  /** White space goes unwrapped. */
  function Rendered(t: Token): string {
    if t.kind == Blank then EscapeHtml(t.text) else Span(t.kind, t.text)
  }

  /** The images of all tokens in a row. */
  function Joined(image: Token -> string, tokens: seq<Token>): string {
    if tokens == [] then [] else Joined(image, tokens[..|tokens| - 1]) + image(tokens[|tokens| - 1])
  }

  function Render(tokens: seq<Token>): string {
    Joined(Rendered, tokens)
  }

  function TextOfOne(t: Token): string {
    t.text
  }

  function TextOf(tokens: seq<Token>): string {
    Joined(TextOfOne, tokens)
  }

  lemma {:induction false} JoinedSnoc(image: Token -> string, tokens: seq<Token>, t: Token)
    ensures Joined(image, tokens + [t]) == Joined(image, tokens) + image(t)
  {
    assert (tokens + [t])[..|tokens|] == tokens;
  }

  lemma {:induction false} JoinedConcat(image: Token -> string, a: seq<Token>, b: seq<Token>)
    ensures Joined(image, a + b) == Joined(image, a) + Joined(image, b)
  {
    if b == [] {
      assert a + b == a;
    } else {
      assert (a + b)[..|a + b| - 1] == a + b[..|b| - 1];
      JoinedConcat(image, a, b[..|b| - 1]);
    }
  }

  // -------------------------------------------------------------------------
  // Reading the text back
  // -------------------------------------------------------------------------

  /** How long the tag at the start of `html` is. */
  function TagLength(html: string): (n: nat)
    ensures n <= |html| && (html != [] ==> n > 0)
  {
    if html == [] then 0 else if html[0] == '>' then 1 else 1 + TagLength(html[1..])
  }

  function StripTags(html: string): string
    decreases |html|
  {
    if html == [] then []
    else if html[0] == '<' then StripTags(html[TagLength(html)..])
    else [html[0]] + StripTags(html[1..])
  }

  ghost predicate IsTag(t: string) {
    |t| >= 2 && t[0] == '<' && t[|t| - 1] == '>' && '>' !in t[..|t| - 1]
  }

  lemma {:induction false} TagEnds(t: string, rest: string)
    requires t != [] && t[|t| - 1] == '>' && '>' !in t[..|t| - 1]
    ensures TagLength(t + rest) == |t|
  {
    if |t| > 1 {
      assert t[0] == t[..|t| - 1][0];
      assert (t + rest)[1..] == t[1..] + rest;
      assert t[1..][..|t| - 2] == t[..|t| - 1][1..];
      TagEnds(t[1..], rest);
    }
  }

  lemma {:induction false} StripTag(t: string, rest: string)
    requires IsTag(t)
    ensures StripTags(t + rest) == StripTags(rest)
  {
    TagEnds(t, rest);
    assert (t + rest)[|t|..] == rest;
  }

  lemma {:induction false} StripText(s: string, rest: string)
    requires '<' !in s
    ensures StripTags(s + rest) == s + StripTags(rest)
  {
    if s == [] {
      assert s + rest == rest;
    } else {
      assert (s + rest)[1..] == s[1..] + rest;
      StripText(s[1..], rest);
      assert s == [s[0]] + s[1..];
    }
  }

  lemma {:induction false} TagsAreTags(kind: Kind)
    ensures IsTag(OpenTag(ClassOf(kind))) && IsTag(CLOSE_TAG)
  {
  }

  /** Stripping one rendered token leaves its escaped text. */
  lemma {:induction false} StripRendered(t: Token, rest: string)
    ensures StripTags(Rendered(t) + rest) == EscapeHtml(t.text) + StripTags(rest)
  {
    NoMarkupLeft(t.text, '<');
    var body := EscapeHtml(t.text);
    if t.kind == Blank {
      StripText(body, rest);
    } else {
      TagsAreTags(t.kind);
      WrapStrips(OpenTag(ClassOf(t.kind)), body, CLOSE_TAG, rest);
    }
  }

  lemma {:induction false} WrapStrips(open: string, body: string, close: string, rest: string)
    requires IsTag(open) && IsTag(close) && '<' !in body
    ensures StripTags((open + body + close) + rest) == body + StripTags(rest)
  {
    assert (open + body + close) + rest == open + (body + (close + rest));
    StripTag(open, body + (close + rest));
    StripText(body, close + rest);
    StripTag(close, rest);
  }

  /** What reads one image back reads a row of them back. */
  lemma {:induction false} JoinedReadBack(image: Token -> string, read: string -> string, tokens: seq<Token>,
      rest: string)
    requires forall t, r :: read(image(t) + r) == TextOfOne(t) + read(r)
    ensures read(Joined(image, tokens) + rest) == TextOf(tokens) + read(rest)
  {
    if tokens == [] {
      assert Joined(image, tokens) + rest == rest;
    } else {
      var front, last := tokens[..|tokens| - 1], tokens[|tokens| - 1];
      assert Joined(image, tokens) + rest == Joined(image, front) + (image(last) + rest);
      JoinedReadBack(image, read, front, image(last) + rest);
    }
  }

  function Visible(html: string): string {
    Decode(StripTags(html))
  }

  /** Stripping the spans and decoding gives back the text of the tokens. */
  lemma {:induction false} ReadBack(tokens: seq<Token>)
    ensures Visible(Render(tokens)) == TextOf(tokens)
  {
    forall t, r ensures Visible(Rendered(t) + r) == TextOfOne(t) + Visible(r) {
      StripRendered(t, r);
      DecodeUndoesEscape(t.text, StripTags(r));
    }
    JoinedReadBack(Rendered, Visible, tokens, []);
    assert Render(tokens) + [] == Render(tokens);
    assert Visible([]) == [];
  }

  // -------------------------------------------------------------------------
  // Character classes and prefixes
  // -------------------------------------------------------------------------

  /** What JavaScript's trim and the class of white space in its regular expressions recognise. */
  predicate IsSpace(c: char) {
    var n := c as int;
    (9 <= n <= 13) || n == 0x20 || n == 0xA0 || n == 0x1680 || (0x2000 <= n <= 0x200A)
    || n == 0x2028 || n == 0x2029 || n == 0x202F || n == 0x205F || n == 0x3000 || n == 0xFEFF
  }

  predicate IsInk(c: char) { !IsSpace(c) }

  predicate IsDigit(c: char) { '0' <= c <= '9' }

  predicate HexOrColon(c: char) {
    '0' <= c <= '9' || 'a' <= c <= 'f' || 'A' <= c <= 'F' || c == ':'
  }

  /** The longest prefix made of characters of one class. */
  function Prefix(class_: char -> bool, s: string): (n: nat)
    ensures n <= |s| && (forall i :: 0 <= i < n ==> class_(s[i])) && (n < |s| ==> !class_(s[n]))
  {
    if s == [] || !class_(s[0]) then 0 else 1 + Prefix(class_, s[1..])
  }

  predicate AllOf(class_: char -> bool, s: string) {
    forall i :: 0 <= i < |s| ==> class_(s[i])
  }

  /** Digits and the dot after them, or nothing. */
  function DigitsDot(s: string): (n: nat)
    ensures n <= |s| && (n > 0 ==> n >= 2 && s[n - 1] == '.' && AllOf(IsDigit, s[..n - 1]))
  {
    var d := Prefix(IsDigit, s);
    if d > 0 && d < |s| && s[d] == '.' then d + 1 else 0
  }

  /** The length of `n` runs of digits with dots between them at the start of `s`; a run of digits
      stops only at a dot, so the pattern never has to give digits back. */
  function NumbersLength(s: string, n: nat): (len: nat)
    ensures len <= |s|
  {
    if n <= 1 then Prefix(IsDigit, s)
    else
      var first := DigitsDot(s);
      var rest := if first > 0 then NumbersLength(s[first..], n - 1) else 0;
      if rest > 0 then first + rest else 0
  }

  function Ipv4Length(s: string): (n: nat)
    ensures n <= |s|
  {
    NumbersLength(s, 4)
  }

  /** A run of hexadecimal digits and colons counts as an address only with a colon in it. */
  function Ipv6Length(s: string): (n: nat)
    ensures n <= |s|
  {
    var n := Prefix(HexOrColon, s);
    if ':' in s[..n] then n else 0
  }

  function IpLength(s: string): (n: nat)
    ensures n <= |s|
  {
    if Ipv4Length(s) > 0 then Ipv4Length(s) else Ipv6Length(s)
  }

  ghost predicate IsNumber(t: string) {
    t != [] && forall i :: 0 <= i < |t| ==> '0' <= t[i] <= '9'
  }

  /** `n` numbers with dots between them. */
  ghost predicate AreNumbers(t: string, n: nat)
    decreases n
  {
    if n <= 1 then IsNumber(t)
    else exists a, rest :: IsNumber(a) && AreNumbers(rest, n - 1) && t == a + "." + rest
  }

  ghost predicate IsQuad(t: string) {
    AreNumbers(t, 4)
  }

  /** Hexadecimal digits and colons, at least one colon among them. */
  ghost predicate IsColonRun(t: string) {
    ':' in t && forall i :: 0 <= i < |t| ==>
      '0' <= t[i] <= '9' || 'a' <= t[i] <= 'f' || 'A' <= t[i] <= 'F' || t[i] == ':'
  }

  lemma {:induction false} PrefixAtLeast(class_: char -> bool, s: string, n: nat)
    requires n <= |s| && forall i :: 0 <= i < n ==> class_(s[i])
    ensures Prefix(class_, s) >= n
  {
  }

  lemma {:induction false} NumberFound(a: string, rest: string)
    requires IsNumber(a)
    ensures DigitsDot(a + "." + rest) == |a| + 1 && (a + "." + rest)[|a| + 1..] == rest
    ensures Prefix(IsDigit, a + rest) >= |a|
  {
    var s := a + "." + rest;
    PrefixAtLeast(IsDigit, a + rest, |a|);
    PrefixAtLeast(IsDigit, s, |a|);
    assert s[|a|] == '.' && !IsDigit('.');
  }

  lemma {:induction false} NumbersFound(t: string, n: nat, rest: string)
    requires AreNumbers(t, n)
    ensures NumbersLength(t + rest, n) >= |t| > 0
    decreases n
  {
    if n <= 1 {
      NumberFound(t, rest);
    } else {
      var a, u :| IsNumber(a) && AreNumbers(u, n - 1) && t == a + "." + u;
      NumbersFound(u, n - 1, rest);
      MoreFound(a, u, rest, n);
    }
  }

  lemma {:induction false} MoreFound(a: string, u: string, rest: string, n: nat)
    requires n > 1 && IsNumber(a) && NumbersLength(u + rest, n - 1) >= |u| > 0
    ensures NumbersLength((a + "." + u) + rest, n) >= |a + "." + u|
  {
    NumberFound(a, u + rest);
    assert (a + "." + u) + rest == a + "." + (u + rest);
  }

  lemma {:induction false} FoundAreNumbers(s: string, n: nat)
    requires NumbersLength(s, n) > 0
    ensures AreNumbers(s[..NumbersLength(s, n)], n)
  {
    if n > 1 {
      FoundAreNumbers(s[DigitsDot(s)..], n - 1);
      OneMoreNumber(s, NumbersLength(s[DigitsDot(s)..], n - 1), n);
    }
  }

  lemma {:induction false} OneMoreNumber(s: string, len: nat, n: nat)
    requires n > 1 && DigitsDot(s) > 0 && DigitsDot(s) + len <= |s|
    requires AreNumbers(s[DigitsDot(s)..][..len], n - 1)
    ensures AreNumbers(s[..DigitsDot(s) + len], n)
  {
    var first := DigitsDot(s);
    var a, u := s[..first - 1], s[first..][..len];
    assert IsNumber(a);
    assert s[..first + len] == a + "." + u;
  }

  lemma {:induction false} ColonRunFound(s: string, k: nat)
    requires k <= |s| && IsColonRun(s[..k])
    ensures k <= Ipv6Length(s) && IsColonRun(s[..Ipv6Length(s)])
  {
    assert forall i :: 0 <= i < k ==> s[..k][i] == s[i];
    PrefixAtLeast(HexOrColon, s, k);
    var i :| 0 <= i < k && s[..k][i] == ':';
    assert s[..Prefix(HexOrColon, s)][i] == ':';
  }

  /** The address at the start of a line: the longest dotted quad, or if there is none the longest
      run of hexadecimal digits and colons with a colon in it. */
  lemma {:induction false} AddressIsLongest(s: string, k: nat)
    requires k <= |s|
    ensures IpLength(s) > 0 ==> IsQuad(s[..IpLength(s)]) || IsColonRun(s[..IpLength(s)])
    ensures IsQuad(s[..k]) ==> IsQuad(s[..IpLength(s)]) && k <= IpLength(s)
    ensures IsColonRun(s[..k]) ==>
              IsQuad(s[..IpLength(s)]) || (IsColonRun(s[..IpLength(s)]) && k <= IpLength(s))
  {
    if Ipv4Length(s) > 0 {
      FoundAreNumbers(s, 4);
    }
    assert s == s[..k] + s[k..];
    if IsQuad(s[..k]) {
      NumbersFound(s[..k], 4, s[k..]);
    }
    if IsColonRun(s[..k]) {
      ColonRunFound(s, k);
    }
  }

  /** Where " #" first occurs; the end if it does not. */
  function CommentIndex(s: string): (n: nat)
    ensures n <= |s|
    ensures n < |s| ==> n + 1 < |s| && s[n] == ' ' && s[n + 1] == '#'
    ensures forall i :: 0 <= i < n && i + 1 < |s| ==> !(s[i] == ' ' && s[i + 1] == '#')
  {
    if |s| < 2 then |s|
    else if s[0] == ' ' && s[1] == '#' then 0
    else 1 + CommentIndex(s[1..])
  }

  // -------------------------------------------------------------------------
  // The highlighter
  // -------------------------------------------------------------------------

  /** A body is cut into maximal runs: white space as it is, the rest as domains. */
  ghost predicate BodyTokens(tokens: seq<Token>) {
    && (forall i :: 0 <= i < |tokens| ==> tokens[i].text != [] && IsBodyToken(tokens[i]))
    && (forall i :: KindChanges(tokens, i))
  }

  ghost predicate KindChanges(tokens: seq<Token>, i: int) {
    0 < i < |tokens| ==> tokens[i].kind != tokens[i - 1].kind
  }

  ghost predicate IsBodyToken(t: Token) {
    match t.kind
    case Blank => AllOf(IsSpace, t.text)
    case Domain => AllOf(IsInk, t.text)
    case _ => false
  }

  /** The first `i` characters of the body have been put out. */
  ghost predicate Emitted(render: Token -> string, body: string, i: nat, html: string, tokens: seq<Token>) {
    i <= |body| && html == Joined(render, tokens) && TextOf(tokens) == body[..i] && BodyTokens(tokens)
  }

  /** Puts out the next `n` characters as one token; nothing if there are none. */
  method Emit(render: Token -> string, body: string, i: nat, n: nat, kind: Kind, html0: string,
      ghost tokens0: seq<Token>)
    returns (html: string, ghost tokens: seq<Token>)
    requires i + n <= |body| && Emitted(render, body, i, html0, tokens0)
    requires n > 0 ==> IsBodyToken(Token(kind, body[i..i + n]))
                       && (tokens0 != [] ==> tokens0[|tokens0| - 1].kind != kind)
    ensures Emitted(render, body, i + n, html, tokens)
    ensures tokens == if n > 0 then tokens0 + [Token(kind, body[i..i + n])] else tokens0
  {
    html, tokens := html0, tokens0;
    if n > 0 {
      var t := Token(kind, body[i..i + n]);
      html := html0 + render(t);
      tokens := tokens0 + [t];
      JoinedSnoc(render, tokens0, t);
      JoinedSnoc(TextOfOne, tokens0, t);
      assert body[..i + n] == body[..i] + body[i..i + n];
      assert forall k :: KindChanges(tokens0, k) ==> KindChanges(tokens, k);
    }
  }

  /** How many characters of one class follow from position `i`. */
  function Run(class_: char -> bool, body: string, i: nat): (n: nat)
    requires i <= |body|
    ensures i + n <= |body| && AllOf(class_, body[i..i + n]) && (i + n < |body| ==> !class_(body[i + n]))
  {
    var n := Prefix(class_, body[i..]);
    assert body[i..i + n] == body[i..][..n];
    n
  }

  /** Ink, then space: at least one character, and what follows is ink again. */
  lemma {:induction false} InkThenSpace(body: string, i: nat, n: nat, m: nat)
    requires i < |body| && n == Run(IsInk, body, i) && m == Run(IsSpace, body, i + n)
    ensures n + m > 0 && i + n + m <= |body|
    ensures IsInk(body[i]) ==> n > 0
    ensures i + n < |body| ==> m > 0
    ensures i + n + m < |body| ==> IsInk(body[i + n + m])
  {
  }

  ghost predicate LastIs(tokens: seq<Token>, kind: Kind) {
    tokens != [] ==> tokens[|tokens| - 1].kind == kind
  }

  ghost predicate BetweenRounds(render: Token -> string, body: string, i: nat, html: string, tokens: seq<Token>) {
    && Emitted(render, body, i, html, tokens)
    && (i < |body| ==> LastIs(tokens, Blank) && (tokens != [] ==> IsInk(body[i])))
  }

  method EmitInk(render: Token -> string, body: string, i: nat, n: nat, html0: string, ghost tokens0: seq<Token>)
    returns (html: string, ghost tokens: seq<Token>)
    requires i < |body| && BetweenRounds(render, body, i, html0, tokens0) && n == Run(IsInk, body, i)
    ensures Emitted(render, body, i + n, html, tokens) && LastIs(tokens, Domain)
  {
    assert IsInk(body[i]) ==> n > 0;
    html, tokens := Emit(render, body, i, n, Domain, html0, tokens0);
  }

  method EmitSpace(render: Token -> string, body: string, i: nat, m: nat, html0: string, ghost tokens0: seq<Token>)
    returns (html: string, ghost tokens: seq<Token>)
    requires Emitted(render, body, i, html0, tokens0) && LastIs(tokens0, Domain) && m == Run(IsSpace, body, i)
    requires i < |body| ==> IsSpace(body[i])
    ensures BetweenRounds(render, body, i + m, html, tokens)
  {
    assert i < |body| ==> m > 0;
    html, tokens := Emit(render, body, i, m, Blank, html0, tokens0);
  }

  method EmitRound(render: Token -> string, body: string, i: nat, html0: string, ghost tokens0: seq<Token>)
    returns (next: nat, html: string, ghost tokens: seq<Token>)
    requires i < |body| && BetweenRounds(render, body, i, html0, tokens0)
    ensures i < next <= |body| && BetweenRounds(render, body, next, html, tokens)
  {
    var n := Run(IsInk, body, i);
    var m := Run(IsSpace, body, i + n);
    InkThenSpace(body, i, n, m);
    html, tokens := EmitInk(render, body, i, n, html0, tokens0);
    html, tokens := EmitSpace(render, body, i + n, m, html, tokens);
    next := i + n + m;
  }

  /** The body is split at white space, keeping the white space: each round takes a run of ink and
      the run of space after it; an empty run is skipped. */
  method TokenizeHostsBody(render: Token -> string, body: string) returns (html: string, ghost tokens: seq<Token>)
    ensures html == Joined(render, tokens) && TextOf(tokens) == body && BodyTokens(tokens)
  {
    html, tokens := [], [];
    var i: nat := 0;
    while i < |body|
      invariant i <= |body| && BetweenRounds(render, body, i, html, tokens)
    {
      i, html, tokens := EmitRound(render, body, i, html, tokens);
    }
    assert body[..i] == body;
  }

  /** Tokens of a line that is neither blank nor a comment: an optional address, the body, an
      optional comment from the first " #" on. */
  ghost predicate RuleTokens(line: string, tokens: seq<Token>) {
    var n := IpLength(line);
    var rest := line[n..];
    var c := CommentIndex(rest);
    exists body: seq<Token> ::
      && BodyTokens(body) && TextOf(body) == rest[..c]
      && tokens == Assembled(n > 0, line[..n], body, c < |rest|, rest[c..])
  }

  function OptionalToken(present: bool, kind: Kind, text: string): seq<Token> {
    if present then [Token(kind, text)] else []
  }

  lemma {:induction false} JoinedOptional(image: Token -> string, present: bool, kind: Kind, text: string)
    ensures Joined(image, OptionalToken(present, kind, text)) == if present then image(Token(kind, text)) else []
  {
    assert [Token(kind, text)][..0] == [];
  }

  function TrimStart(s: string): string {
    s[Prefix(IsSpace, s)..]
  }

  method HighlightRule(render: Token -> string, line: string) returns (html: string, ghost tokens: seq<Token>)
    ensures html == Joined(render, tokens) && TextOf(tokens) == line && RuleTokens(line, tokens)
  {
    html := [];
    var n := IpLength(line);
    if n > 0 {
      html := render(Token(Ip, line[..n]));
    }
    var remaining := line[n..];
    var commentIdx := CommentIndex(remaining);
    var body;
    ghost var bodyTokens;
    body, bodyTokens := TokenizeHostsBody(render, remaining[..commentIdx]);
    html := html + body;
    if commentIdx < |remaining| {
      html := html + render(Token(Comment, remaining[commentIdx..]));
    }
    tokens := Assembled(n > 0, line[..n], bodyTokens, commentIdx < |remaining|, remaining[commentIdx..]);
    AssembledJoined(render, n > 0, line[..n], bodyTokens, commentIdx < |remaining|, remaining[commentIdx..]);
    AssembledJoined(TextOfOne, n > 0, line[..n], bodyTokens, commentIdx < |remaining|, remaining[commentIdx..]);
    Cut(line, n, commentIdx);
  }

  function Assembled(hasIp: bool, ip: string, body: seq<Token>, hasComment: bool, comment: string): seq<Token> {
    OptionalToken(hasIp, Ip, ip) + body + OptionalToken(hasComment, Comment, comment)
  }

  lemma {:induction false} AssembledJoined(image: Token -> string, hasIp: bool, ip: string, body: seq<Token>,
      hasComment: bool, comment: string)
    ensures Joined(image, Assembled(hasIp, ip, body, hasComment, comment))
         == (if hasIp then image(Token(Ip, ip)) else []) + Joined(image, body)
              + (if hasComment then image(Token(Comment, comment)) else [])
  {
    ThreeParts(image, OptionalToken(hasIp, Ip, ip), body, OptionalToken(hasComment, Comment, comment));
    JoinedOptional(image, hasIp, Ip, ip);
    JoinedOptional(image, hasComment, Comment, comment);
  }

  lemma {:induction false} Cut(line: string, n: nat, c: nat)
    requires n <= |line| && c <= |line[n..]|
    ensures line == (if n > 0 then line[..n] else []) + line[n..][..c]
        + (if c < |line[n..]| then line[n..][c..] else [])
  {
  }

  lemma {:induction false} ThreeParts(image: Token -> string, a: seq<Token>, b: seq<Token>, c: seq<Token>)
    ensures Joined(image, a + b + c) == Joined(image, a) + Joined(image, b) + Joined(image, c)
  {
    JoinedConcat(image, a, b);
    JoinedConcat(image, a + b, c);
  }

  /** A blank line gives nothing, a comment line one span; otherwise the prefix of a disabled rule
      cannot occur, because a line that starts with it is a comment line. */
  method HighlightHostsLine(line: string) returns (html: string, ghost tokens: seq<Token>)
    ensures TrimStart(line) == [] ==> html == []
    ensures TrimStart(line) != [] ==> html == Render(tokens) && TextOf(tokens) == line
    ensures TrimStart(line) != [] ==>
              if TrimStart(line)[0] == '#' then tokens == [Token(Comment, line)] else RuleTokens(line, tokens)
  {
    html, tokens := [], [];
    var trimmed := TrimStart(line);
    if trimmed == [] {
      return;
    }
    if trimmed[0] == '#' {
      tokens := [Token(Comment, line)];
      JoinedOptional(Rendered, true, Comment, line);
      JoinedOptional(TextOfOne, true, Comment, line);
      html := Rendered(Token(Comment, line));
      return;
    }
    if "# " <= line {
      assert false;
    }
    html, tokens := HighlightRule(Rendered, line);
  }

  /** Stripping the spans of a highlighted line and decoding what is left returns the line. */
  method HighlightAndReadBack(line: string) returns (html: string)
    ensures TrimStart(line) != [] ==> Visible(html) == line
    ensures TrimStart(line) == [] ==> html == []
  {
    ghost var tokens;
    html, tokens := HighlightHostsLine(line);
    ReadBack(tokens);
  }
}
