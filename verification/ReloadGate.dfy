/** The reload gate: a fingerprint label for what the engine holds, and a cache of parsed
    blocklists. Both are optimisations; the contracts below say what they may not change. */
module ReloadGate {
  import opened Base
  import opened AdBlockModel
  import opened Sorting
  import opened Fingerprint
  import opened RuleInputs

  datatype ParsedSource = ParsedSource(contentHash: Hash, domains: seq<string>)

  type ParseCache = map<SourceId, ParsedSource>

  function ParsedOf(env: Env, content: string): ParsedSource {
    ParsedSource(env.contentHash(content), env.parse(content))
  }

  /** A hit needs an entry recorded under the same content hash. */
  function Lookup(parsed: ParseCache, id: SourceId, contentHash: Hash): Option<seq<string>> {
    if id in parsed && parsed[id].contentHash == contentHash then Some(parsed[id].domains) else None
  }

  function Retained(parsed: ParseCache, keep: set<SourceId>): ParseCache {
    map id | id in parsed && id in keep :: parsed[id]
  }

  /** The entries a load leaves behind: each id with the parse of its current cache text. */
  function FreshEntries(env: Env, ids: set<SourceId>, disk: Disk): ParseCache {
    map id | id in ids :: ParsedOf(env, CacheText(disk, id))
  }

  /** The parse cache after loading `sources` one by one. */
  function AfterLoading(env: Env, parsed: ParseCache, sources: seq<Source>, disk: Disk): ParseCache {
    if sources == [] then parsed
    else
      var s := sources[|sources| - 1];
      var before := AfterLoading(env, parsed, sources[..|sources| - 1], disk);
      if s.enabled then before[s.id := ParsedOf(env, CacheText(disk, s.id))] else before
  }

  lemma {:induction false} AfterLoadingIsFresh(env: Env, parsed: ParseCache, sources: seq<Source>, disk: Disk)
    ensures AfterLoading(env, parsed, sources, disk) == parsed + FreshEntries(env, EnabledIds(sources), disk)
  {
    if sources != [] {
      var rest, s := sources[..|sources| - 1], sources[|sources| - 1];
      assert sources == rest + [s];
      AfterLoadingIsFresh(env, parsed, rest, disk);
      EnabledIdsSnoc(rest, s);
      if s.enabled {
        FreshEntriesGrow(env, parsed, EnabledIds(rest), s.id, disk);
      } else {
        assert EnabledIds(sources) == EnabledIds(rest);
      }
    }
  }

  lemma {:induction false} FreshEntriesGrow(env: Env, parsed: ParseCache, ids: set<SourceId>, id: SourceId, disk: Disk)
    ensures parsed + FreshEntries(env, ids + {id}, disk)
         == (parsed + FreshEntries(env, ids, disk))[id := ParsedOf(env, CacheText(disk, id))]
  {
  }

  /** Every entry is the parse of one of the texts `seen`, stored under that text's hash. */
  ghost predicate EntriesSound(env: Env, parsed: ParseCache, seen: set<string>) {
    forall id :: id in parsed ==> exists c :: c in seen && parsed[id] == ParsedOf(env, c)
  }

  lemma {:induction false} LookupIsParse(env: Env, parsed: ParseCache, seen: set<string>, id: SourceId, content: string)
    requires EntriesSound(env, parsed, seen) && content in seen
    requires CollisionFree(env.contentHash, seen)
    ensures Lookup(parsed, id, env.contentHash(content)) in {None, Some(env.parse(content))}
  {
  }

  // -------------------------------------------------------------------------
  // What has been read so far, and the assumption on the two hashes
  // -------------------------------------------------------------------------

  datatype History = History(texts: set<string>, readings: set<Reading>)

  /** Neither 64-bit hash collides on what it was actually given. */
  ghost predicate NoCollisions(env: Env, h: History) {
    && CollisionFree(env.contentHash, h.texts)
    && CollisionFree(env.fingerprintHash, set r | r in h.readings :: Stream(KeyOf(env, r)))
    && (forall r :: r in h.readings ==> Representable(KeyOf(env, r)))
  }

  /** The texts of every reading are among the texts seen. */
  ghost predicate Closed(h: History) {
    forall r :: r in h.readings ==> Contents(r) <= h.texts
  }

  /** The label names a reading whose rules the engine holds. */
  ghost predicate LabelAgrees(env: Env, h: History, recorded: Option<Hash>, rules: Rules) {
    recorded.Some? ==>
      exists r :: r in h.readings && FingerprintOf(env, r) == recorded.value && rules == RebuildOf(env, r)
  }

  /** Readings with one label have one rebuild. */
  ghost predicate ToldApart(env: Env, q: Reading, r: Reading) {
    FingerprintOf(env, q) == FingerprintOf(env, r) ==> RebuildOf(env, q) == RebuildOf(env, r)
  }

  lemma {:induction false} LabelsTellReadingsApart(env: Env, h: History)
    requires NoCollisions(env, h) && Closed(h)
    ensures forall q, r :: q in h.readings && r in h.readings ==> ToldApart(env, q, r)
  {
    forall q, r | q in h.readings && r in h.readings ensures ToldApart(env, q, r) {
      if FingerprintOf(env, q) == FingerprintOf(env, r) {
        FingerprintDeterminesRules(env, q, r);
      }
    }
  }

  /** An agreeing label that equals a reading's fingerprint means the engine already holds
      what rebuilding from that reading would install. */
  lemma {:induction false} MatchingLabelMeansCurrentRules(env: Env, h: History, recorded: Option<Hash>, rules: Rules,
      r: Reading)
    requires NoCollisions(env, h) && Closed(h)
    ensures r in h.readings && LabelAgrees(env, h, recorded, rules) && recorded == Some(FingerprintOf(env, r)) ==>
              rules == RebuildOf(env, r)
  {
    LabelsTellReadingsApart(env, h);
    if r in h.readings && LabelAgrees(env, h, recorded, rules) && recorded == Some(FingerprintOf(env, r)) {
      var q :| q in h.readings && FingerprintOf(env, q) == recorded.value && rules == RebuildOf(env, q);
      assert ToldApart(env, q, r);
    }
  }

  /** The resolver's engine; installing rules also clears its response cache. */
  class DnsServer {
    var rules: Rules
    var cacheClears: nat

    constructor ()
      ensures rules == Rules(false, map[], {}, {}) && cacheClears == 0
    {
      rules := Rules(false, map[], {}, {});
      cacheClears := 0;
    }

    method ReloadAdBlockRules(enabled: bool, zeroAddr: map<string, Ip>, nxdomain: set<string>, whitelist: set<string>)
      modifies this
      ensures rules == Rules(enabled, zeroAddr, nxdomain, whitelist)
      ensures cacheClears == old(cacheClears) + 1
    {
      rules := Rules(enabled, zeroAddr, nxdomain, whitelist);
      cacheClears := cacheClears + 1;
    }
  }

  class AdBlockReloadGate {
    var fingerprint: Option<Hash>
    var parsed: ParseCache

    constructor ()
      ensures fingerprint == None && parsed == map[]
    {
      fingerprint := None;
      parsed := map[];
    }

    method CachedDomains(id: SourceId, contentHash: Hash) returns (domains: Option<seq<string>>)
      ensures domains == Lookup(parsed, id, contentHash)
      ensures domains.Some? <==> id in parsed && parsed[id].contentHash == contentHash
      ensures domains.Some? ==> domains.value == parsed[id].domains
    {
      domains := None;
      if id in parsed {
        var p := parsed[id];
        if p.contentHash == contentHash {
          domains := Some(p.domains);
        }
      }
    }

    method StoreParsed(id: SourceId, contentHash: Hash, domains: seq<string>)
      modifies this`parsed
      ensures parsed == old(parsed)[id := ParsedSource(contentHash, domains)]
    {
      parsed := parsed[id := ParsedSource(contentHash, domains)];
    }

    method RetainSources(keep: set<SourceId>)
      modifies this`parsed
      ensures parsed == Retained(old(parsed), keep)
      ensures forall id :: id in parsed <==> id in old(parsed) && id in keep
      ensures forall id :: id in parsed ==> parsed[id] == old(parsed)[id]
    {
      parsed := map id | id in parsed && id in keep :: parsed[id];
    }

    /** One source's domains, through the cache: the parse of its text, hit or miss, and
        afterwards the cache holds exactly that parse for it. */
    method DomainsOf(env: Env, source: Source, content: string, ghost seen: set<string>)
      returns (loaded: Loaded)
      requires EntriesSound(env, parsed, seen) && content in seen
      requires CollisionFree(env.contentHash, seen)
      modifies this`parsed
      ensures loaded == Load(env, Cached(source, content))
      ensures parsed == old(parsed)[source.id := ParsedOf(env, content)]
      ensures EntriesSound(env, parsed, seen)
    {
      var contentHash := env.contentHash(content);
      var hit := CachedDomains(source.id, contentHash);
      LookupIsParse(env, parsed, seen, source.id, content);
      if hit.Some? {
        loaded := Loaded(source, contentHash, hit.value);
      } else {
        var domains := env.parse(content);
        StoreParsed(source.id, contentHash, domains);
        loaded := Loaded(source, contentHash, domains);
      }
    }

    /** Loads the enabled sources in order, through the parse cache. */
    method LoadSources(env: Env, all: seq<Source>, disk: Disk, ghost seen: set<string>)
      returns (sources: seq<Loaded>)
      requires EntriesSound(env, parsed, seen) && CollisionFree(env.contentHash, seen)
      requires forall s :: s in all ==> CacheText(disk, s.id) in seen
      modifies this`parsed
      ensures sources == LoadAll(env, ReadEnabled(all, disk))
      ensures parsed == old(parsed) + FreshEntries(env, EnabledIds(all), disk)
      ensures EntriesSound(env, parsed, seen)
    {
      sources := [];
      var i := 0;
      while i < |all|
        invariant 0 <= i <= |all|
        invariant sources == LoadAll(env, ReadEnabled(all[..i], disk))
        invariant EntriesSound(env, parsed, seen)
        invariant parsed == AfterLoading(env, old(parsed), all[..i], disk)
      {
        var source := all[i];
        assert all[..i + 1] == all[..i] + [source];
        ReadEnabledSnoc(all[..i], source, disk);
        if source.enabled {
          var loaded := DomainsOf(env, source, CacheText(disk, source.id), seen);
          sources := sources + [loaded];
        }
        i := i + 1;
      }
      assert all[..i] == all;
      AfterLoadingIsFresh(env, old(parsed), all, disk);
    }

    /** The inputs of a reload do not depend on what the parse cache held; afterwards it holds
        the parses of the enabled sources and nothing else. */
    method LoadClassifyInputs(env: Env, snap: AdBlockState, disk: Disk, ghost seen: set<string>)
      returns (inputs: ClassifyInputs)
      requires EntriesSound(env, parsed, seen) && CollisionFree(env.contentHash, seen)
      requires forall s :: s in snap.sources ==> CacheText(disk, s.id) in seen
      modifies this`parsed
      ensures inputs == InputsOf(env, ReadingOf(snap, disk))
      ensures parsed == if snap.enabled then FreshEntries(env, EnabledIds(snap.sources), disk)
                        else Retained(old(parsed), EnabledIds(snap.sources))
      ensures EntriesSound(env, parsed, seen)
    {
      ghost var caches := ReadingOf(snap, disk).caches;
      var sources: seq<Loaded> := [];
      if snap.enabled {
        sources := LoadSources(env, snap.sources, disk, seen);
      }
      RetainSources(EnabledIds(snap.sources));
      assert sources == LoadAll(env, caches);
      SortCommutesWithLoad(env, caches);
      sources := Sort(LoadedById, sources);
      inputs := ClassifyInputs(env.fingerprintHash(Stream(KeyOfLoaded(snap.enabled, sources, snap.whitelist))),
                               snap.enabled, sources, TextSet(snap.whitelist));
    }

    /** Domains of every enabled source with its position, whatever the master switch says;
        the overlap report reads the same cache and must not be affected by it either. */
    method LoadEnabledSourceDomains(env: Env, state: AdBlockState, disk: Disk, ghost seen: set<string>)
      returns (loaded: seq<(nat, seq<string>)>)
      requires EntriesSound(env, parsed, seen) && CollisionFree(env.contentHash, seen)
      requires forall s :: s in state.sources ==> CacheText(disk, s.id) in seen
      modifies this`parsed
      ensures loaded == EnabledDomains(env, state.sources, disk)
      ensures parsed == old(parsed) + FreshEntries(env, EnabledIds(state.sources), disk)
      ensures EntriesSound(env, parsed, seen)
    {
      loaded := [];
      var i := 0;
      while i < |state.sources|
        invariant 0 <= i <= |state.sources|
        invariant loaded == EnabledDomains(env, state.sources[..i], disk)
        invariant EntriesSound(env, parsed, seen)
        invariant parsed == AfterLoading(env, old(parsed), state.sources[..i], disk)
      {
        var source := state.sources[i];
        assert state.sources[..i + 1] == state.sources[..i] + [source];
        EnabledDomainsSnoc(env, state.sources[..i], source, disk);
        if source.enabled {
          var entry := DomainsOf(env, source, CacheText(disk, source.id), seen);
          loaded := loaded + [(i, entry.domains)];
        }
        i := i + 1;
      }
      assert state.sources[..i] == state.sources;
      AfterLoadingIsFresh(env, old(parsed), state.sources, disk);
    }

    /** Maps each domain to 0.0.0.0 unless it is mapped already. */
    static method AddUnspecified(zeroAddr: map<string, Ip>, domains: seq<string>) returns (r: map<string, Ip>)
      requires forall d :: d in zeroAddr ==> zeroAddr[d] == UNSPECIFIED
      ensures r == map d | d in zeroAddr.Keys + TextSet(domains) :: UNSPECIFIED
    {
      r := zeroAddr;
      for j := 0 to |domains|
        invariant r == map d | d in zeroAddr.Keys + TextSet(domains[..j]) :: UNSPECIFIED
      {
        assert domains[..j + 1] == domains[..j] + [domains[j]];
        if domains[j] !in r {
          r := r[domains[j] := UNSPECIFIED];
        }
      }
      assert domains[..|domains|] == domains;
    }

    static method AddAll(nxdomain: set<string>, domains: seq<string>) returns (r: set<string>)
      ensures r == nxdomain + TextSet(domains)
    {
      r := nxdomain;
      for j := 0 to |domains|
        invariant r == nxdomain + TextSet(domains[..j])
      {
        assert domains[..j + 1] == domains[..j] + [domains[j]];
        r := r + {domains[j]};
      }
      assert domains[..|domains|] == domains;
    }

    /** Fills the engine's two block sets from the loaded sources. */
    method MergeInputs(inputs: ClassifyInputs)
      returns (zeroAddr: map<string, Ip>, nxdomain: set<string>, whitelist: set<string>)
      ensures Rules(inputs.enabled, zeroAddr, nxdomain, whitelist) == RulesOfInputs(inputs)
    {
      zeroAddr, nxdomain := map[], {};
      if inputs.enabled {
        var i := 0;
        while i < |inputs.sources|
          invariant 0 <= i <= |inputs.sources|
          invariant zeroAddr == map d | d in DomainsAnswering(inputs.sources[..i], ZeroAddress) :: UNSPECIFIED
          invariant nxdomain == DomainsAnswering(inputs.sources[..i], NxDomain)
        {
          var source := inputs.sources[i];
          assert inputs.sources[..i + 1] == inputs.sources[..i] + [source];
          AnsweringSnoc(inputs.sources[..i], source);
          match source.source.response {
            case ZeroAddress => zeroAddr := AddUnspecified(zeroAddr, source.domains);
            case NxDomain => nxdomain := AddAll(nxdomain, source.domains);
          }
          i := i + 1;
        }
        assert inputs.sources[..i] == inputs.sources;
      }
      whitelist := inputs.whitelist;
    }

    /** Unless cancelled, the engine ends up holding what a full rebuild would have installed,
        whether or not the reload was skipped, and the label keeps telling the truth. */
    method ClassifyAndReload(env: Env, snap: AdBlockState, disk: Disk, server: DnsServer,
                             force: bool, cancelled: bool, ghost h: History)
      returns (reloaded: bool)
      requires NoCollisions(env, h) && Closed(h) && EntriesSound(env, parsed, h.texts)
      requires ReadingOf(snap, disk) in h.readings
      requires forall s :: s in snap.sources ==> CacheText(disk, s.id) in h.texts
      requires LabelAgrees(env, h, fingerprint, server.rules)
      modifies this, server
      ensures reloaded == (!cancelled && (force || old(fingerprint) != Some(FingerprintOf(env, ReadingOf(snap, disk)))))
      ensures !cancelled || (!force && old(fingerprint) == Some(FingerprintOf(env, ReadingOf(snap, disk)))) ==>
                server.rules == RebuildOf(env, ReadingOf(snap, disk))
                && fingerprint == Some(FingerprintOf(env, ReadingOf(snap, disk)))
      ensures !reloaded ==> fingerprint == old(fingerprint) && server.rules == old(server.rules)
                            && server.cacheClears == old(server.cacheClears)
      ensures reloaded ==> server.cacheClears == old(server.cacheClears) + 1
      ensures LabelAgrees(env, h, fingerprint, server.rules) && EntriesSound(env, parsed, h.texts)
    {
      ghost var r := ReadingOf(snap, disk);
      var inputs := LoadClassifyInputs(env, snap, disk, h.texts);
      if !force && fingerprint == Some(inputs.fingerprint) {
        MatchingLabelMeansCurrentRules(env, h, fingerprint, server.rules, r);
        return false;
      }
      if cancelled {
        return false;
      }
      var zeroAddr, nxdomain, whitelist := MergeInputs(inputs);
      server.ReloadAdBlockRules(snap.enabled, zeroAddr, nxdomain, whitelist);
      fingerprint := Some(inputs.fingerprint);
      assert server.rules == RebuildOf(env, r);
      return true;
    }
  }

  lemma {:induction false} AnsweringSnoc(sources: seq<Loaded>, l: Loaded)
    ensures forall r ::
              DomainsAnswering(sources + [l], r)
                == DomainsAnswering(sources, r) + if l.source.response == r then TextSet(l.domains) else {}
  {
    assert forall x :: x in sources + [l] <==> x in sources || x == l;
  }

  // -------------------------------------------------------------------------
  // What the overlap report reads
  // -------------------------------------------------------------------------

  /** `(position, domains)` of each enabled source, recomputed from scratch. */
  function EnabledDomains(env: Env, sources: seq<Source>, disk: Disk): seq<(nat, seq<string>)> {
    if sources == [] then []
    else
      var last := |sources| - 1;
      EnabledDomains(env, sources[..last], disk)
        + if sources[last].enabled then [(last, env.parse(CacheText(disk, sources[last].id)))] else []
  }

  lemma {:induction false} EnabledDomainsSnoc(env: Env, sources: seq<Source>, s: Source, disk: Disk)
    ensures EnabledDomains(env, sources + [s], disk)
         == EnabledDomains(env, sources, disk)
              + if s.enabled then [(|sources|, env.parse(CacheText(disk, s.id)))] else []
  {
    assert (sources + [s])[..|sources|] == sources;
  }
}
