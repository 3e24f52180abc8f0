/** The byte stream the reload fingerprint hashes, and why it determines the rule inputs.

    Lengths and hashes are written as fixed-width little-endian words, ids as length-prefixed
    byte arrays and texts as UTF-8 closed by 0xFF, so the stream can be read back in one way only. */
module Fingerprint {
  import opened Base
  import opened AdBlockModel

  type Byte = b: nat | b < 256

  /** What the fingerprint says about one enabled source. */
  datatype Entry = Entry(id: SourceId, response: Response, contentHash: Hash)

  datatype Key = Key(enabled: bool, entries: seq<Entry>, whitelist: seq<string>)

  /** Lengths are machine words. */
  ghost predicate Representable(key: Key) {
    |key.entries| < Pow256(8) && |key.whitelist| < Pow256(8)
  }

  function Pow256(k: nat): (r: nat)
    ensures r > 0
  {
    if k == 0 then 1 else 256 * Pow256(k - 1)
  }

  /** The low `k` bytes of `n`, least significant first. */
  function LittleEndian(n: nat, k: nat): (bytes: seq<Byte>)
    ensures |bytes| == k
  {
    if k == 0 then [] else [n % 256] + LittleEndian(n / 256, k - 1)
  }

  function BigEndian(n: nat, k: nat): (bytes: seq<Byte>)
    ensures |bytes| == k
  {
    if k == 0 then [] else BigEndian(n / 256, k - 1) + [n % 256]
  }

  function Utf8Char(c: char): (bytes: seq<Byte>)
    ensures 1 <= |bytes| <= 4
    ensures forall b :: b in bytes ==> b != 0xFF
  {
    var n := c as int;
    if n < 0x80 then [n]
    else if n < 0x800 then [0xC0 + n / 64, 0x80 + n % 64]
    else if n < 0x1_0000 then [0xE0 + n / 4096, 0x80 + n / 64 % 64, 0x80 + n % 64]
    else [0xF0 + n / 262144, 0x80 + n / 4096 % 64, 0x80 + n / 64 % 64, 0x80 + n % 64]
  }

  function Utf8(s: string): seq<Byte> {
    if s == [] then [] else Utf8Char(s[0]) + Utf8(s[1..])
  }

  function TextBytes(s: string): seq<Byte> {
    Utf8(s) + [0xFF]
  }

  function ResponseByte(r: Response): Byte {
    match r
    case ZeroAddress => 0
    case NxDomain => 1
  }

  function EntryBytes(e: Entry): (bytes: seq<Byte>)
    ensures |bytes| == 33
  {
    LittleEndian(16, 8) + BigEndian(e.id, 16) + [ResponseByte(e.response)] + LittleEndian(e.contentHash, 8)
  }

  /** A list of items, each encoded by `encode`, back to back. */
  function AllBytes<T>(encode: T -> seq<Byte>, items: seq<T>): seq<Byte> {
    if items == [] then [] else encode(items[0]) + AllBytes(encode, items[1..])
  }

  /** A length word of `width` bytes, then the items. */
  function Counted<T>(encode: T -> seq<Byte>, items: seq<T>, width: nat): seq<Byte> {
    LittleEndian(|items|, width) + AllBytes(encode, items)
  }

  /** A flag and two counted lists, whatever the encodings of the items. */
  function StreamBy<A, B>(flag: bool, first: A -> seq<Byte>, xs: seq<A>, second: B -> seq<Byte>, ys: seq<B>, width: nat)
    : seq<Byte>
  {
    [if flag then 1 else 0] + Counted(first, xs, width) + Counted(second, ys, width)
  }

  function StreamWithWords(key: Key, width: nat): seq<Byte> {
    StreamBy(key.enabled, EntryBytes, key.entries, TextBytes, key.whitelist, width)
  }

  /** What the hasher is fed on a 64-bit machine. */
  function Stream(key: Key): seq<Byte> {
    StreamWithWords(key, 8)
  }

  // -------------------------------------------------------------------------
  // Reading back
  // -------------------------------------------------------------------------

  /** Equal concatenations whose first parts have equal lengths agree part by part. */
  lemma {:induction false} SplitEqual<T>(a: seq<T>, x: seq<T>, b: seq<T>, y: seq<T>)
    requires |a| == |b| && a + x == b + y
    ensures a == b && x == y
  {
    assert a == (a + x)[..|a|] && b == (b + y)[..|b|];
    assert x == (a + x)[|a|..] && y == (b + y)[|b|..];
  }

  lemma {:induction false} LittleEndianInjective(m: nat, n: nat, k: nat)
    requires m < Pow256(k) && n < Pow256(k)
    requires LittleEndian(m, k) == LittleEndian(n, k)
    ensures m == n
  {
    if k > 0 {
      SplitEqual([m % 256], LittleEndian(m / 256, k - 1), [n % 256], LittleEndian(n / 256, k - 1));
      assert [m % 256][0] == [n % 256][0];
      LittleEndianInjective(m / 256, n / 256, k - 1);
    }
  }

  lemma {:induction false} BigEndianInjective(m: nat, n: nat, k: nat)
    requires m < Pow256(k) && n < Pow256(k)
    requires BigEndian(m, k) == BigEndian(n, k)
    ensures m == n
  {
    if k > 0 {
      SplitEqual(BigEndian(m / 256, k - 1), [m % 256], BigEndian(n / 256, k - 1), [n % 256]);
      assert [m % 256][0] == [n % 256][0];
      BigEndianInjective(m / 256, n / 256, k - 1);
    }
  }

  lemma {:induction false} WordSizes()
    ensures Pow256(8) == 0x1_0000_0000_0000_0000
    ensures Pow256(16) == 0x1_0000_0000_0000_0000_0000_0000_0000_0000
  {
    assert Pow256(4) == 0x1_0000_0000;
    assert Pow256(8) == 256 * (256 * (256 * (256 * Pow256(4))));
    assert Pow256(12) == 256 * (256 * (256 * (256 * Pow256(8))));
    assert Pow256(16) == 256 * (256 * (256 * (256 * Pow256(12))));
  }

  /** Reads one encoded character back. */
  function CodePoint(bytes: seq<Byte>): int
    requires 1 <= |bytes| <= 4
  {
    if |bytes| == 1 then Digit(bytes, 0, 0)
    else if |bytes| == 2 then Digit(bytes, 0, 0xC0) * 64 + Digit(bytes, 1, 0x80)
    else if |bytes| == 3 then Digit(bytes, 0, 0xE0) * 4096 + Digit(bytes, 1, 0x80) * 64 + Digit(bytes, 2, 0x80)
    else
      Digit(bytes, 0, 0xF0) * 262144 + Digit(bytes, 1, 0x80) * 4096 + Digit(bytes, 2, 0x80) * 64
      + Digit(bytes, 3, 0x80)
  }

  function Digit(bytes: seq<Byte>, i: nat, mark: int): int
    requires i < |bytes|
  {
    bytes[i] as int - mark
  }

  lemma {:induction false} Base64Digits(n: nat)
    ensures n / 4096 * 4096 + n / 64 % 64 * 64 + n % 64 == n
    ensures n / 262144 * 262144 + n / 4096 % 64 * 4096 + n / 64 % 64 * 64 + n % 64 == n
  {
    assert n / 4096 == n / 64 / 64;
    assert n / 262144 == n / 4096 / 64;
  }

  lemma {:induction false} Utf8Decodes(c: char)
    ensures CodePoint(Utf8Char(c)) == c as int
  {
    Base64Digits(c as int);
  }

  /** How many bytes a character takes, told by its first byte. */
  function LengthByLead(lead: Byte): nat {
    if lead < 0x80 then 1 else if lead < 0xE0 then 2 else if lead < 0xF0 then 3 else 4
  }

  lemma {:induction false} Utf8Length(c: char)
    ensures |Utf8Char(c)| == LengthByLead(Utf8Char(c)[0])
  {
  }

  /** The first byte of an encoded character tells its length, and the rest its code point. */
  lemma {:induction false} Utf8CharPrefixFree(c: char, x: seq<Byte>, d: char, y: seq<Byte>)
    requires Utf8Char(c) + x == Utf8Char(d) + y
    ensures c == d && x == y
  {
    Utf8Decodes(c);
    Utf8Decodes(d);
    Utf8Length(c);
    Utf8Length(d);
    EncodedSplit(Utf8Char(c), x, Utf8Char(d), y);
  }

  lemma {:induction false} EncodedSplit(p: seq<Byte>, x: seq<Byte>, q: seq<Byte>, y: seq<Byte>)
    requires p != [] && q != [] && p + x == q + y
    requires |p| == LengthByLead(p[0]) && |q| == LengthByLead(q[0])
    ensures p == q && x == y
  {
    assert p[0] == (p + x)[0] == (q + y)[0] == q[0];
    SplitEqual(p, x, q, y);
  }

  lemma {:induction false} TextPrefixFree(s: string, x: seq<Byte>, t: string, y: seq<Byte>)
    requires TextBytes(s) + x == TextBytes(t) + y
    ensures s == t && x == y
  {
    if s == [] || t == [] {
      FirstByte(s, x);
      FirstByte(t, y);
      SplitEqual(TextBytes([]), x, TextBytes([]), y);
    } else {
      assert TextBytes(s) + x == Utf8Char(s[0]) + (TextBytes(s[1..]) + x);
      assert TextBytes(t) + y == Utf8Char(t[0]) + (TextBytes(t[1..]) + y);
      Utf8CharPrefixFree(s[0], TextBytes(s[1..]) + x, t[0], TextBytes(t[1..]) + y);
      TextPrefixFree(s[1..], x, t[1..], y);
      assert s == [s[0]] + s[1..] && t == [t[0]] + t[1..];
    }
  }

  lemma {:induction false} FirstByte(s: string, x: seq<Byte>)
    ensures (TextBytes(s) + x)[0] == 0xFF <==> s == []
  {
    if s != [] {
      assert (TextBytes(s) + x)[0] == Utf8Char(s[0])[0];
      assert Utf8Char(s[0])[0] in Utf8Char(s[0]);
    }
  }

  lemma {:induction false} EntryInjective(e: Entry, f: Entry)
    requires EntryBytes(e) == EntryBytes(f)
    ensures e == f
  {
    WordSizes();
    var len := LittleEndian(16, 8);
    SplitEqual(len + BigEndian(e.id, 16) + [ResponseByte(e.response)], LittleEndian(e.contentHash, 8),
               len + BigEndian(f.id, 16) + [ResponseByte(f.response)], LittleEndian(f.contentHash, 8));
    SplitEqual(len + BigEndian(e.id, 16), [ResponseByte(e.response)],
               len + BigEndian(f.id, 16), [ResponseByte(f.response)]);
    SplitEqual(len, BigEndian(e.id, 16), len, BigEndian(f.id, 16));
    assert [ResponseByte(e.response)][0] == [ResponseByte(f.response)][0];
    BigEndianInjective(e.id, f.id, 16);
    LittleEndianInjective(e.contentHash, f.contentHash, 8);
  }

  ghost predicate PrefixFree<T(!new)>(encode: T -> seq<Byte>) {
    forall s, x, t, y :: encode(s) + x == encode(t) + y ==> s == t && x == y
  }

  lemma {:induction false} TextsArePrefixFree()
    ensures PrefixFree(TextBytes)
  {
    forall s, x, t, y | TextBytes(s) + x == TextBytes(t) + y ensures s == t && x == y {
      TextPrefixFree(s, x, t, y);
    }
  }

  lemma {:induction false} EntriesArePrefixFree()
    ensures PrefixFree(EntryBytes)
  {
    forall s, x, t, y | EntryBytes(s) + x == EntryBytes(t) + y ensures s == t && x == y {
      SplitEqual(EntryBytes(s), x, EntryBytes(t), y);
      EntryInjective(s, t);
    }
  }

  /** Lists of equal length over a prefix-free encoding can be read back, whatever follows. */
  lemma {:induction false} ListPrefixFree<T(!new)>(encode: T -> seq<Byte>, a: seq<T>, x: seq<Byte>, b: seq<T>,
      y: seq<Byte>)
    requires PrefixFree(encode)
    requires |a| == |b| && AllBytes(encode, a) + x == AllBytes(encode, b) + y
    ensures a == b && x == y
  {
    if a == [] {
      assert AllBytes(encode, a) + x == x && AllBytes(encode, b) + y == y;
    } else {
      assert AllBytes(encode, a) + x == encode(a[0]) + (AllBytes(encode, a[1..]) + x);
      assert AllBytes(encode, b) + y == encode(b[0]) + (AllBytes(encode, b[1..]) + y);
      ListPrefixFree(encode, a[1..], x, b[1..], y);
      assert a == [a[0]] + a[1..] && b == [b[0]] + b[1..];
    }
  }

  lemma {:induction false} CountedPrefixFree<T(!new)>(encode: T -> seq<Byte>, a: seq<T>, x: seq<Byte>, b: seq<T>,
      y: seq<Byte>, width: nat)
    requires PrefixFree(encode)
    requires |a| < Pow256(width) && |b| < Pow256(width)
    requires Counted(encode, a, width) + x == Counted(encode, b, width) + y
    ensures a == b && x == y
  {
    var p, q := LittleEndian(|a|, width), LittleEndian(|b|, width);
    assert Counted(encode, a, width) + x == p + (AllBytes(encode, a) + x);
    assert Counted(encode, b, width) + y == q + (AllBytes(encode, b) + y);
    SplitEqual(p, AllBytes(encode, a) + x, q, AllBytes(encode, b) + y);
    LittleEndianInjective(|a|, |b|, width);
    ListPrefixFree(encode, a, x, b, y);
  }

  lemma {:induction false} StreamByInjective<A(!new), B(!new)>(first: A -> seq<Byte>, second: B -> seq<Byte>,
      width: nat,
      f: bool, xs: seq<A>, ys: seq<B>, g: bool, us: seq<A>, vs: seq<B>)
    requires PrefixFree(first) && PrefixFree(second)
    requires |xs| < Pow256(width) && |ys| < Pow256(width) && |us| < Pow256(width) && |vs| < Pow256(width)
    requires StreamBy(f, first, xs, second, ys, width) == StreamBy(g, first, us, second, vs, width)
    ensures f == g && xs == us && ys == vs
  {
    var a, b := Counted(first, xs, width), Counted(second, ys, width);
    var c, d := Counted(first, us, width), Counted(second, vs, width);
    var p: seq<Byte> := [if f then 1 else 0];
    var q: seq<Byte> := [if g then 1 else 0];
    assert p + a + b == p + (a + b) && q + c + d == q + (c + d);
    SplitEqual(p, a + b, q, c + d);
    assert p[0] == q[0];
    CountedPrefixFree(first, xs, b, us, d, width);
    assert b + [] == b && d + [] == d;
    CountedPrefixFree(second, ys, [], vs, [], width);
  }

  lemma {:induction false} StreamWithWordsInjective(k: Key, l: Key, width: nat)
    requires |k.entries| < Pow256(width) && |k.whitelist| < Pow256(width)
    requires |l.entries| < Pow256(width) && |l.whitelist| < Pow256(width)
    requires StreamWithWords(k, width) == StreamWithWords(l, width)
    ensures k == l
  {
    TextsArePrefixFree();
    EntriesArePrefixFree();
    StreamByInjective(EntryBytes, TextBytes, width, k.enabled, k.entries, k.whitelist,
        l.enabled, l.entries, l.whitelist);
  }

  /** Two rule inputs that feed the hasher the same bytes are the same inputs. */
  lemma {:induction false} StreamInjective(k: Key, l: Key)
    requires Representable(k) && Representable(l)
    requires Stream(k) == Stream(l)
    ensures k == l
  {
    StreamWithWordsInjective(k, l, 8);
  }
}
