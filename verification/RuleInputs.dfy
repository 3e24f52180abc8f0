/** What a reload computes, as a function of what it read: the fingerprint key and the rule
    sets. Two readings with the same key install the same rules. */
module RuleInputs {
  import opened Base
  import opened AdBlockModel
  import opened Sorting
  import opened Fingerprint

  /** The hashers and the blocklist parser: functions of their argument and nothing else. */
  datatype Env = Env(
    parse: string -> seq<string>,
    contentHash: string -> Hash,
    fingerprintHash: seq<Byte> -> Hash)

  /** Cache files by source; an unreadable file counts as missing. */
  type Disk = map<SourceId, string>

  function CacheText(disk: Disk, id: SourceId): string {
    if id in disk then disk[id] else ""
  }

  /** One enabled source and the cache text that was read for it. */
  datatype Cached = Cached(source: Source, content: string)

  /** Everything a reload reads before it takes a decision. */
  datatype Reading = Reading(enabled: bool, caches: seq<Cached>, whitelist: seq<string>)

  datatype Loaded = Loaded(source: Source, contentHash: Hash, domains: seq<string>)

  datatype ClassifyInputs = ClassifyInputs(
    fingerprint: Hash, enabled: bool, sources: seq<Loaded>, whitelist: set<string>)

  type Ip = seq<nat>
  const UNSPECIFIED: Ip := [0, 0, 0, 0]

  /** What the engine holds after a reload. */
  datatype Rules = Rules(
    enabled: bool, zeroAddr: map<string, Ip>, nxdomain: set<string>, whitelist: set<string>)

  // -------------------------------------------------------------------------
  // Reading
  // -------------------------------------------------------------------------

  function ReadEnabled(sources: seq<Source>, disk: Disk): seq<Cached> {
    if sources == [] then []
    else (if sources[0].enabled then [Cached(sources[0], CacheText(disk, sources[0].id))] else [])
           + ReadEnabled(sources[1..], disk)
  }

  /** With the master switch off no source is read: the engine gets the empty rule sets. */
  function ReadingOf(snap: AdBlockState, disk: Disk): Reading {
    Reading(snap.enabled, if snap.enabled then ReadEnabled(snap.sources, disk) else [], snap.whitelist)
  }

  function EnabledIds(sources: seq<Source>): set<SourceId> {
    set s | s in sources && s.enabled :: s.id
  }

  lemma {:induction false} EnabledIdsSnoc(sources: seq<Source>, s: Source)
    ensures EnabledIds(sources + [s]) == EnabledIds(sources) + if s.enabled then {s.id} else {}
  {
    assert forall x :: x in sources + [s] <==> x in sources || x == s;
  }

  lemma {:induction false} ReadEnabledSnoc(sources: seq<Source>, s: Source, disk: Disk)
    ensures ReadEnabled(sources + [s], disk)
         == ReadEnabled(sources, disk) + (if s.enabled then [Cached(s, CacheText(disk, s.id))] else [])
  {
    if sources == [] {
      assert sources + [s] == [s] && [s][1..] == [];
    } else {
      var head := if sources[0].enabled then [Cached(sources[0], CacheText(disk, sources[0].id))] else [];
      assert (sources + [s])[1..] == sources[1..] + [s] && (sources + [s])[0] == sources[0];
      ReadEnabledSnoc(sources[1..], s, disk);
      assert ReadEnabled(sources, disk) == head + ReadEnabled(sources[1..], disk);
    }
  }

  lemma {:induction false} ReadEnabledMembers(sources: seq<Source>, disk: Disk)
    ensures forall c :: c in ReadEnabled(sources, disk) <==>
              c.source in sources && c.source.enabled && c.content == CacheText(disk, c.source.id)
  {
    if sources != [] {
      ReadEnabledMembers(sources[1..], disk);
      assert forall s :: s in sources <==> s == sources[0] || s in sources[1..];
    }
  }

  // -------------------------------------------------------------------------
  // Loading and merging
  // -------------------------------------------------------------------------

  function Load(env: Env, c: Cached): Loaded {
    Loaded(c.source, env.contentHash(c.content), env.parse(c.content))
  }

  function LoadAll(env: Env, caches: seq<Cached>): (r: seq<Loaded>)
    ensures |r| == |caches|
    ensures forall i :: 0 <= i < |r| ==> r[i] == Load(env, caches[i])
  {
    seq(|caches|, i requires 0 <= i < |caches| => Load(env, caches[i]))
  }

  predicate CachedById(a: Cached, b: Cached) { a.source.id <= b.source.id }

  predicate LoadedById(a: Loaded, b: Loaded) { a.source.id <= b.source.id }

  function EntryOf(l: Loaded): Entry {
    Entry(l.source.id, l.source.response, l.contentHash)
  }

  /** The fingerprint's view of sources already sorted by id. */
  function KeyOfLoaded(enabled: bool, sources: seq<Loaded>, whitelist: seq<string>): Key {
    Key(enabled,
        seq(|sources|, i requires 0 <= i < |sources| => EntryOf(sources[i])),
        Sort(TextLe, whitelist))
  }

  function KeyOf(env: Env, r: Reading): Key {
    KeyOfLoaded(r.enabled, LoadAll(env, Sort(CachedById, r.caches)), r.whitelist)
  }

  function FingerprintOf(env: Env, r: Reading): Hash {
    env.fingerprintHash(Stream(KeyOf(env, r)))
  }

  function TextSet(texts: seq<string>): set<string> {
    set w | w in texts
  }

  /** The inputs a reload hands on, recomputed from scratch. */
  function InputsOf(env: Env, r: Reading): ClassifyInputs {
    ClassifyInputs(FingerprintOf(env, r), r.enabled, LoadAll(env, Sort(CachedById, r.caches)), TextSet(r.whitelist))
  }

  /** Domains of all sources that answer with `response`. */
  function DomainsAnswering(sources: seq<Loaded>, response: Response): set<string> {
    set l, d | l in sources && l.source.response == response && d in l.domains :: d
  }

  function RulesOfInputs(inputs: ClassifyInputs): Rules {
    var sources := if inputs.enabled then inputs.sources else [];
    Rules(inputs.enabled,
          map d | d in DomainsAnswering(sources, ZeroAddress) :: UNSPECIFIED,
          DomainsAnswering(sources, NxDomain),
          inputs.whitelist)
  }

  /** What a full rebuild installs for a reading: no cache, no fingerprint involved. */
  function RebuildOf(env: Env, r: Reading): Rules {
    RulesOfInputs(InputsOf(env, r))
  }

  // -------------------------------------------------------------------------
  // The key determines the rules
  // -------------------------------------------------------------------------

  ghost predicate CollisionFree<T(!new)>(hash: T -> Hash, seen: set<T>) {
    forall a, b :: a in seen && b in seen && hash(a) == hash(b) ==> a == b
  }

  ghost function Contents(r: Reading): set<string> {
    set c | c in r.caches :: c.content
  }

  lemma {:induction false} CachedByIdIsOrder()
    ensures TotalPreorder(CachedById) && TotalPreorder(LoadedById)
  {
  }

  lemma {:induction false} SortCommutesWithLoad(env: Env, caches: seq<Cached>)
    ensures Sort(LoadedById, LoadAll(env, caches)) == LoadAll(env, Sort(CachedById, caches))
  {
    if caches != [] {
      SortCommutesWithLoad(env, caches[1..]);
      assert LoadAll(env, caches)[1..] == LoadAll(env, caches[1..]);
      InsertCommutesWithLoad(env, caches[0], Sort(CachedById, caches[1..]));
    }
  }

  lemma {:induction false} InsertCommutesWithLoad(env: Env, c: Cached, s: seq<Cached>)
    ensures Insert(LoadedById, Load(env, c), LoadAll(env, s)) == LoadAll(env, Insert(CachedById, c, s))
  {
    if s == [] || CachedById(c, s[0]) {
      assert LoadAll(env, [c] + s) == [Load(env, c)] + LoadAll(env, s);
    } else {
      InsertCommutesWithLoad(env, c, s[1..]);
      assert LoadAll(env, s)[1..] == LoadAll(env, s[1..]);
      assert LoadAll(env, [s[0]] + Insert(CachedById, c, s[1..]))
          == [Load(env, s[0])] + LoadAll(env, Insert(CachedById, c, s[1..]));
    }
  }

  lemma {:induction false} SameSortSameElements(a: seq<string>, b: seq<string>)
    requires Sort(TextLe, a) == Sort(TextLe, b)
    ensures TextSet(a) == TextSet(b)
  {
    TextLeIsOrder();
    SortSorts(TextLe, a);
    SortSorts(TextLe, b);
  }

  /** Same response and same domains, position by position. */
  ghost predicate SameBlocking(a: seq<Loaded>, b: seq<Loaded>) {
    |a| == |b| && forall i :: 0 <= i < |a| ==>
      a[i].source.response == b[i].source.response && a[i].domains == b[i].domains
  }

  lemma {:induction false} SameBlockingSameDomains(a: seq<Loaded>, b: seq<Loaded>, response: Response)
    requires SameBlocking(a, b)
    ensures DomainsAnswering(a, response) == DomainsAnswering(b, response)
  {
    forall d | d in DomainsAnswering(a, response) ensures d in DomainsAnswering(b, response) {
      var i :| 0 <= i < |a| && a[i].source.response == response && d in a[i].domains;
      assert b[i] in b;
    }
    forall d | d in DomainsAnswering(b, response) ensures d in DomainsAnswering(a, response) {
      var i :| 0 <= i < |b| && b[i].source.response == response && d in b[i].domains;
      assert a[i] in a;
    }
  }

  /** Readings with equal fingerprint keys install equal rules, as long as the content hash
      does not confuse two of the texts that were read. */
  lemma {:induction false} KeyDeterminesRules(env: Env, q: Reading, r: Reading)
    requires KeyOf(env, q) == KeyOf(env, r)
    requires CollisionFree(env.contentHash, Contents(q) + Contents(r))
    ensures RebuildOf(env, q) == RebuildOf(env, r)
  {
    CachedByIdIsOrder();
    SortSorts(CachedById, q.caches);
    SortSorts(CachedById, r.caches);
    var qs, rs := Sort(CachedById, q.caches), Sort(CachedById, r.caches);
    var a, b := LoadAll(env, qs), LoadAll(env, rs);
    assert |a| == |KeyOf(env, q).entries| == |KeyOf(env, r).entries| == |b|;
    forall i | 0 <= i < |a|
      ensures a[i].source.response == b[i].source.response && a[i].domains == b[i].domains
    {
      assert KeyOf(env, q).entries[i] == EntryOf(a[i]) && KeyOf(env, r).entries[i] == EntryOf(b[i]);
      assert qs[i] in q.caches && rs[i] in r.caches;
      assert qs[i].content in Contents(q) && rs[i].content in Contents(r);
    }
    SameBlockingSameDomains(a, b, ZeroAddress);
    SameBlockingSameDomains(a, b, NxDomain);
    SameBlockingSameDomains([], [], ZeroAddress);
    SameSortSameElements(q.whitelist, r.whitelist);
  }

  /** Equal fingerprints mean equal rules, as long as neither hash collides on what it was
      given. This is what lets a reload be skipped. */
  lemma {:induction false} FingerprintDeterminesRules(env: Env, q: Reading, r: Reading)
    requires FingerprintOf(env, q) == FingerprintOf(env, r)
    requires Representable(KeyOf(env, q)) && Representable(KeyOf(env, r))
    requires CollisionFree(env.fingerprintHash, {Stream(KeyOf(env, q)), Stream(KeyOf(env, r))})
    requires CollisionFree(env.contentHash, Contents(q) + Contents(r))
    ensures RebuildOf(env, q) == RebuildOf(env, r)
  {
    StreamInjective(KeyOf(env, q), KeyOf(env, r));
    KeyDeterminesRules(env, q, r);
  }

  // -------------------------------------------------------------------------
  // Order independence
  // -------------------------------------------------------------------------

  ghost predicate Permuted<T>(a: seq<T>, b: seq<T>) {
    multiset(a) == multiset(b)
  }

  lemma {:induction false} DropOne<T>(left: seq<T>, x: T, right: seq<T>)
    ensures multiset(left + [x] + right) - multiset{x} == multiset(left + right)
  {
    assert multiset(left + [x] + right) == multiset(left) + multiset{x} + multiset(right);
    assert multiset(left + right) == multiset(left) + multiset(right);
  }

  /** `b` splits around an occurrence of `a[0]`; what is left is a permutation of the tail of `a`. */
  lemma {:induction false} FindHead<T>(a: seq<T>, b: seq<T>) returns (left: seq<T>, right: seq<T>)
    requires a != [] && Permuted(a, b)
    ensures b == left + [a[0]] + right && Permuted(a[1..], left + right)
  {
    assert a[0] in multiset(b);
    var i :| 0 <= i < |b| && b[i] == a[0];
    left, right := b[..i], b[i + 1..];
    assert b == left + [a[0]] + right;
    assert a == [] + [a[0]] + a[1..] && [] + a[1..] == a[1..];
    DropOne([], a[0], a[1..]);
    DropOne(left, a[0], right);
  }

  lemma {:induction false} ReadEnabledPermuted(a: seq<Source>, b: seq<Source>, disk: Disk)
    requires Permuted(a, b)
    ensures Permuted(ReadEnabled(a, disk), ReadEnabled(b, disk))
  {
    if a == [] {
      assert |multiset(b)| == 0;
    } else {
      var left, right := FindHead(a, b);
      ReadEnabledPermuted(a[1..], left + right, disk);
      ReadEnabledConcat(left, right, disk);
      ReadEnabledConcat(left + [a[0]], right, disk);
      ReadEnabledSnoc(left, a[0], disk);
    }
  }

  lemma {:induction false} ReadEnabledConcat(a: seq<Source>, b: seq<Source>, disk: Disk)
    ensures ReadEnabled(a + b, disk) == ReadEnabled(a, disk) + ReadEnabled(b, disk)
  {
    if a == [] {
      assert a + b == b;
    } else {
      assert (a + b)[1..] == a[1..] + b && (a + b)[0] == a[0];
      ReadEnabledConcat(a[1..], b, disk);
      var head := if a[0].enabled then [Cached(a[0], CacheText(disk, a[0].id))] else [];
      assert ReadEnabled(a, disk) == head + ReadEnabled(a[1..], disk);
    }
  }

  /** Reordering sources with distinct ids, or whitelist entries, changes neither the fingerprint
      nor the inputs nor the rules. */
  lemma {:induction false} ReadingOrderIrrelevant(env: Env, s: AdBlockState, t: AdBlockState, disk: Disk)
    requires s.enabled == t.enabled && Permuted(s.sources, t.sources) && Permuted(s.whitelist, t.whitelist)
    requires DistinctIds(s.sources)
    ensures InputsOf(env, ReadingOf(s, disk)) == InputsOf(env, ReadingOf(t, disk))
    ensures RebuildOf(env, ReadingOf(s, disk)) == RebuildOf(env, ReadingOf(t, disk))
  {
    TextLeIsOrder();
    CachedByIdIsOrder();
    SortIsOrderIndependent(TextLe, s.whitelist, t.whitelist);
    SameSortSameElements(s.whitelist, t.whitelist);
    ReadEnabledPermuted(s.sources, t.sources, disk);
    var a, b := ReadEnabled(s.sources, disk), ReadEnabled(t.sources, disk);
    ReadEnabledMembers(s.sources, disk);
    SortIsOrderIndependent(CachedById, a, b);
  }
}
