/** HTML escaping in five passes, and what decoding the result gives back. */
module Escape {
  import opened Base

  /** One pass: every occurrence of `c` gives way to `s`. */
  function ReplaceChar(c: char, s: string, text: string): string {
    if text == [] then []
    else (if text[0] == c then s else [text[0]]) + ReplaceChar(c, s, text[1..])
  }

  /** Five passes, in this order. */
  function Passes(amp: string, lt: string, gt: string, quot: string, apos: string, text: string): string {
    ReplaceChar('\'', apos, ReplaceChar('"', quot, ReplaceChar('>', gt,
        ReplaceChar('<', lt, ReplaceChar('&', amp, text)))))
  }

  /** The ampersand goes first, so that the entities of later passes are left alone. */
  function EscapeHtml(text: string): string {
    Passes("&amp;", "&lt;", "&gt;", "&quot;", "&#39;", text)
  }

  /** What one character becomes. */
  function Entity(c: char): string {
    match c
    case '&' => "&amp;"
    case '<' => "&lt;"
    case '>' => "&gt;"
    case '"' => "&quot;"
    case '\'' => "&#39;"
    case _ => [c]
  }

  function Mapped(image: char -> string, text: string): string {
    if text == [] then [] else image(text[0]) + Mapped(image, text[1..])
  }

  /** A reader of the five entities; everything else stands for itself. */
  function Decode(html: string): string
    decreases |html|
  {
    if html == [] then []
    else if "&amp;" <= html then ['&'] + Decode(html[5..])
    else if "&lt;" <= html then ['<'] + Decode(html[4..])
    else if "&gt;" <= html then ['>'] + Decode(html[4..])
    else if "&quot;" <= html then ['"'] + Decode(html[6..])
    else if "&#39;" <= html then ['\''] + Decode(html[5..])
    else [html[0]] + Decode(html[1..])
  }

  // -------------------------------------------------------------------------
  // Five passes are one
  // -------------------------------------------------------------------------

  lemma {:induction false} ReplaceConcat(c: char, s: string, a: string, b: string)
    ensures ReplaceChar(c, s, a + b) == ReplaceChar(c, s, a) + ReplaceChar(c, s, b)
  {
    if a == [] {
      assert a + b == b;
    } else {
      assert (a + b)[1..] == a[1..] + b;
      ReplaceConcat(c, s, a[1..], b);
    }
  }

  lemma {:induction false} ReplaceAbsent(c: char, s: string, a: string)
    requires c !in a
    ensures ReplaceChar(c, s, a) == a
  {
    if a != [] {
      ReplaceAbsent(c, s, a[1..]);
      assert a == [a[0]] + a[1..];
    }
  }

  lemma {:induction false} ReplaceOne(c: char, s: string, x: char)
    ensures ReplaceChar(c, s, [x]) == if x == c then s else [x]
  {
    assert [x][1..] == [];
  }

  ghost predicate FreeOf(s: string, chars: string) {
    forall c :: c in chars ==> c !in s
  }

  /** No entity contains a character that a later pass replaces. */
  lemma {:induction false} OneCharacterBy(amp: string, lt: string, gt: string, quot: string, apos: string, x: char)
    requires FreeOf(amp, "<>\"'") && FreeOf(lt, ">\"'") && FreeOf(gt, "\"'") && FreeOf(quot, "'")
    ensures Passes(amp, lt, gt, quot, apos, [x])
         == match x
            case '&' => amp
            case '<' => lt
            case '>' => gt
            case '"' => quot
            case '\'' => apos
            case _ => [x]
  {
    ReplaceOne('&', amp, x);
    ReplaceOne('<', lt, x);
    ReplaceOne('>', gt, x);
    ReplaceOne('"', quot, x);
    ReplaceOne('\'', apos, x);
    if x == '&' {
      ReplaceAbsent('<', lt, amp);
      ReplaceAbsent('>', gt, amp);
      ReplaceAbsent('"', quot, amp);
      ReplaceAbsent('\'', apos, amp);
    } else if x == '<' {
      ReplaceAbsent('>', gt, lt);
      ReplaceAbsent('"', quot, lt);
      ReplaceAbsent('\'', apos, lt);
    } else if x == '>' {
      ReplaceAbsent('"', quot, gt);
      ReplaceAbsent('\'', apos, gt);
    } else if x == '"' {
      ReplaceAbsent('\'', apos, quot);
    }
  }

  lemma {:induction false} PassesConcat(amp: string, lt: string, gt: string, quot: string, apos: string, a: string,
      b: string)
    ensures Passes(amp, lt, gt, quot, apos, a + b)
        == Passes(amp, lt, gt, quot, apos, a) + Passes(amp, lt, gt, quot, apos, b)
  {
    var (a1, b1) := (ReplaceChar('&', amp, a), ReplaceChar('&', amp, b));
    ReplaceConcat('&', amp, a, b);
    var (a2, b2) := (ReplaceChar('<', lt, a1), ReplaceChar('<', lt, b1));
    ReplaceConcat('<', lt, a1, b1);
    var (a3, b3) := (ReplaceChar('>', gt, a2), ReplaceChar('>', gt, b2));
    ReplaceConcat('>', gt, a2, b2);
    ReplaceConcat('"', quot, a3, b3);
    ReplaceConcat('\'', apos, ReplaceChar('"', quot, a3), ReplaceChar('"', quot, b3));
  }

  lemma {:induction false} PassesMap(amp: string, lt: string, gt: string, quot: string, apos: string,
      image: char -> string, text: string)
    requires forall x :: Passes(amp, lt, gt, quot, apos, [x]) == image(x)
    ensures Passes(amp, lt, gt, quot, apos, text) == Mapped(image, text)
  {
    if text != [] {
      PassesMap(amp, lt, gt, quot, apos, image, text[1..]);
      assert text == [text[0]] + text[1..];
      PassesConcat(amp, lt, gt, quot, apos, [text[0]], text[1..]);
    }
  }

  /** The five passes together replace each character by its entity. */
  lemma {:induction false} PassesAreEntities(text: string)
    ensures EscapeHtml(text) == Mapped(Entity, text)
  {
    forall x ensures Passes("&amp;", "&lt;", "&gt;", "&quot;", "&#39;", [x]) == Entity(x) {
      OneCharacterBy("&amp;", "&lt;", "&gt;", "&quot;", "&#39;", x);
    }
    PassesMap("&amp;", "&lt;", "&gt;", "&quot;", "&#39;", Entity, text);
  }

  // -------------------------------------------------------------------------
  // Decoding
  // -------------------------------------------------------------------------

  lemma {:induction false} DecodeEntity(x: char, rest: string)
    ensures Decode(Entity(x) + rest) == [x] + Decode(rest)
  {
    var html := Entity(x) + rest;
    assert html[|Entity(x)|..] == rest;
    assert html[0] == if x == '<' || x == '>' || x == '"' || x == '\'' then '&' else x;
    match x
    case '&' =>
    case '<' => assert html[1] == 'l';
    case '>' => assert html[1] == 'g';
    case '"' => assert html[1] == 'q';
    case '\'' => assert html[1] == '#';
    case _ => PlainHead(html);
  }

  lemma {:induction false} PlainHead(html: string)
    requires html != [] && html[0] != '&'
    ensures Decode(html) == [html[0]] + Decode(html[1..])
  {
  }

  lemma {:induction false} DecodeMapped(image: char -> string, decode: string -> string, text: string, rest: string)
    requires forall x, r :: decode(image(x) + r) == [x] + decode(r)
    ensures decode(Mapped(image, text) + rest) == text + decode(rest)
  {
    if text == [] {
      assert Mapped(image, text) + rest == rest;
    } else {
      DecodeMapped(image, decode, text[1..], rest);
      assert Mapped(image, text) + rest == image(text[0]) + (Mapped(image, text[1..]) + rest);
      assert text == [text[0]] + text[1..];
    }
  }

  /** Decoding undoes escaping, whatever follows; in particular escaping is injective. */
  lemma {:induction false} DecodeUndoesEscape(text: string, rest: string)
    ensures Decode(EscapeHtml(text) + rest) == text + Decode(rest)
  {
    PassesAreEntities(text);
    forall x, r ensures Decode(Entity(x) + r) == [x] + Decode(r) {
      DecodeEntity(x, r);
    }
    DecodeMapped(Entity, Decode, text, rest);
  }

  lemma {:induction false} MappedChars(image: char -> string, text: string, banned: char)
    requires forall x :: banned !in image(x)
    ensures banned !in Mapped(image, text)
  {
    if text != [] {
      MappedChars(image, text[1..], banned);
    }
  }

  /** No markup character survives, so escaped text cannot open or close a tag or a quotation. */
  lemma {:induction false} NoMarkupLeft(text: string, c: char)
    requires c == '<' || c == '>' || c == '"' || c == '\''
    ensures c !in EscapeHtml(text)
  {
    PassesAreEntities(text);
    MappedChars(Entity, text, c);
  }
}
