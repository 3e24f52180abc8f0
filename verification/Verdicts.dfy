/** From lists to answers: what a client is told about a name, in terms of the cache files and the
    whitelist alone. */
module Verdicts {
  import opened Base
  import opened AdBlockModel
  import opened Text
  import opened Domains
  import opened Blocklist
  import opened CacheReload
  import opened RuleInputs
  import opened ReloadGate
  import opened Trie
  import opened Engine
  import opened Overlap

  /** Cache files are read by the hosts reader. */
  ghost predicate ReadsHosts(isIp: string -> bool, env: Env) {
    forall t :: env.parse(t) == ParseBlocklist(isIp, Format.Hosts, t).domains
  }

  /** A whitelist entry is the query or a parent of it. */
  ghost predicate Allowed(state: AdBlockState, query: string) {
    exists w :: w in state.whitelist && IsSuffixAtDot(w, query)
  }

  /** An enabled source that answers this way lists the query or a parent of it. */
  ghost predicate Blocked(env: Env, state: AdBlockState, disk: Disk, response: Response, query: string) {
    exists k, d :: Lists(env, state.sources, disk, response, d, k) && IsSuffixAtDot(d, query)
  }

  lemma {:induction false} ParsedHaveLabels(isIp: string -> bool, text: string, d: string)
    requires d in ParseBlocklist(isIp, Format.Hosts, text).domains
    ensures AllLabels(d) && Lower(d) == d
  {
    AcceptedDomains(isIp, Format.Hosts, Lines(text));
  }

  /** Every listed domain is in lower case and made of nonempty labels. */
  ghost predicate ListsHoldNames(env: Env, state: AdBlockState, disk: Disk) {
    forall response, d, k :: Lists(env, state.sources, disk, response, d, k) ==> AllLabels(d) && Lower(d) == d
  }

  lemma {:induction false} ListsAreParsed(isIp: string -> bool, env: Env, state: AdBlockState, disk: Disk)
    requires ReadsHosts(isIp, env)
    ensures ListsHoldNames(env, state, disk)
  {
    forall response, d, k: nat | Lists(env, state.sources, disk, response, d, k)
      ensures AllLabels(d) && Lower(d) == d
    {
      ParsedHaveLabels(isIp, CacheText(disk, state.sources[k].id), d);
    }
  }

  lemma {:induction false} RulesCoverIff(env: Env, state: AdBlockState, disk: Disk, response: Response, query: string)
    requires state.enabled && ListsHoldNames(env, state, disk)
    ensures Covers(DomainsAnswering(InputsOf(env, ReadingOf(state, disk)).sources, response), query)
       <==> Blocked(env, state, disk, response, query)
  {
    var rules := DomainsAnswering(InputsOf(env, ReadingOf(state, disk)).sources, response);
    if d :| d in rules && IsParent(d, query) {
      RuleDomains(env, state, disk, response, d);
      var k :| Lists(env, state.sources, disk, response, d, k);
      ParentIsSuffix(d, query);
    }
    if k: nat, d: string :| Lists(env, state.sources, disk, response, d, k) && IsSuffixAtDot(d, query) {
      RuleDomains(env, state, disk, response, d);
      ParentIsSuffix(d, query);
    }
  }

  lemma {:induction false} WhitelistCoversIff(state: AdBlockState, query: string)
    requires forall w :: w in state.whitelist ==> IsHostname(w)
    ensures Covers(TextSet(state.whitelist), query) <==> Allowed(state, query)
  {
    forall w | w in state.whitelist ensures IsParent(w, query) <==> IsSuffixAtDot(w, query) {
      ValidatedEntryMatches(w, query);
    }
    if w :| w in TextSet(state.whitelist) && IsParent(w, query) {
      assert IsSuffixAtDot(w, query);
    }
    if w :| w in state.whitelist && IsSuffixAtDot(w, query) {
      assert w in TextSet(state.whitelist);
    }
  }

  /** The answer read off the lists and the whitelist. */
  ghost function Listed(env: Env, state: AdBlockState, disk: Disk, query: string): Option<AdBlockAction> {
    if !state.enabled || Allowed(state, query) then None
    else if Blocked(env, state, disk, NxDomain, query) then Some(BlockNxDomain)
    else if Blocked(env, state, disk, ZeroAddress, query) then Some(BlockZeroAddress(UNSPECIFIED))
    else None
  }

  lemma {:induction false} ZeroKeys(env: Env, state: AdBlockState, disk: Disk)
    requires state.enabled
    ensures var rules := RebuildOf(env, ReadingOf(state, disk));
      rules.zeroAddr.Keys == DomainsAnswering(InputsOf(env, ReadingOf(state, disk)).sources, ZeroAddress)
  {
  }

  /** An engine that holds the rebuilt rules refuses, blocks or lets pass any name a client may
      ask for exactly as the lists and the whitelist say: nothing is blocked with the master
      switch off; otherwise the whitelist wins, then the NXDOMAIN sources, then the zero-address
      sources, parents included. */
  lemma {:induction false} AnswerIsListed(isIp: string -> bool, env: Env, state: AdBlockState, disk: Disk,
      query: string, r: Option<AdBlockAction>)
    requires ReadsHosts(isIp, env) && forall w :: w in state.whitelist ==> IsHostname(w)
    requires Decides(RebuildOf(env, ReadingOf(state, disk)), query, r)
    ensures r == Listed(env, state, disk, query)
  {
    if state.enabled {
      WhitelistCoversIff(state, query);
      ListsAreParsed(isIp, env, state, disk);
      RulesCoverIff(env, state, disk, NxDomain, query);
      RulesCoverIff(env, state, disk, ZeroAddress, query);
      ZeroKeys(env, state, disk);
    }
  }

  // -------------------------------------------------------------------------
  // Capitals in a query
  // -------------------------------------------------------------------------

  /** The entry is the query or a parent of it but for capitals, and there are none in the part of
      the query it stands for. */
  predicate SpelledOut(d: string, query: string) {
    IsSuffixAtDot(d, Lower(query)) && Lower(query[|query| - |d|..]) == query[|query| - |d|..]
  }

  lemma {:induction false} SuffixParts(d: string, query: string)
    requires |d| < |query|
    ensures IsSuffixAtDot(d, query) <==> query[|query| - |d| - 1] == '.' && query[|query| - |d|..] == d
  {
    assert query[|query| - |d| - 1..] == [query[|query| - |d| - 1]] + query[|query| - |d|..];
  }

  lemma {:induction false} MatchIsSpelledOut(d: string, query: string)
    requires Lower(d) == d
    ensures IsSuffixAtDot(d, query) <==> SpelledOut(d, query)
  {
    if |d| < |query| {
      SuffixParts(d, query);
      SuffixParts(d, Lower(query));
      LowerOfSuffix(query, |query| - |d|);
    } else if |d| == |query| {
      assert query[0..] == query;
    }
  }

  lemma {:induction false} LowerOfSuffix(s: string, n: nat)
    requires n <= |s|
    ensures Lower(s)[n..] == Lower(s[n..])
  {
  }

  ghost predicate AllowedAsSpelled(state: AdBlockState, query: string) {
    exists w :: w in state.whitelist && SpelledOut(w, query)
  }

  ghost predicate BlockedAsSpelled(env: Env, state: AdBlockState, disk: Disk, response: Response, query: string) {
    exists k, d :: Lists(env, state.sources, disk, response, d, k) && SpelledOut(d, query)
  }

  /** Whatever settles the query in lower case settles it as it is spelled. */
  ghost predicate CapitalsDoNotMatter(env: Env, state: AdBlockState, disk: Disk, query: string) {
    var lower := Lower(query);
    var blocked := response => BlockedAsSpelled(env, state, disk, response, query);
    if !state.enabled then true
    else if Allowed(state, lower) then
      AllowedAsSpelled(state, query) || (!blocked(NxDomain) && !blocked(ZeroAddress))
    else if Blocked(env, state, disk, NxDomain, lower) then blocked(NxDomain)
    else Blocked(env, state, disk, ZeroAddress, lower) ==> blocked(ZeroAddress)
  }

  lemma {:induction false} AllowedSpelled(state: AdBlockState, query: string)
    requires forall w :: w in state.whitelist ==> IsHostname(w)
    ensures Allowed(state, query) <==> AllowedAsSpelled(state, query)
    ensures AllowedAsSpelled(state, query) ==> Allowed(state, Lower(query))
  {
    forall w | w in state.whitelist ensures IsSuffixAtDot(w, query) <==> SpelledOut(w, query) {
      HostnameIsValidUnlessNumeric(w);
      MatchIsSpelledOut(w, query);
    }
  }

  lemma {:induction false} BlockedSpelled(env: Env, state: AdBlockState, disk: Disk, response: Response, query: string)
    requires ListsHoldNames(env, state, disk)
    ensures Blocked(env, state, disk, response, query) <==> BlockedAsSpelled(env, state, disk, response, query)
    ensures BlockedAsSpelled(env, state, disk, response, query) ==> Blocked(env, state, disk, response, Lower(query))
  {
    forall d, k: nat | Lists(env, state.sources, disk, response, d, k)
      ensures IsSuffixAtDot(d, query) <==> SpelledOut(d, query)
    {
      MatchIsSpelledOut(d, query);
    }
  }

  lemma {:induction false} ListedAlikeIff(env: Env, state: AdBlockState, disk: Disk, query: string)
    requires ListsHoldNames(env, state, disk) && forall w :: w in state.whitelist ==> IsHostname(w)
    ensures Listed(env, state, disk, query) == Listed(env, state, disk, Lower(query))
       <==> CapitalsDoNotMatter(env, state, disk, query)
  {
    AllowedSpelled(state, query);
    BlockedSpelled(env, state, disk, NxDomain, query);
    BlockedSpelled(env, state, disk, ZeroAddress, query);
  }

  /** DNS names are the same in any case, lists and whitelist are in lower case, and queries are
      matched as the client spells them. The answer is that for the name in lower case if and only
      if what settles that one has an entry that matches the query where it has no capitals, or a
      whitelisted name is not blocked as it is spelled. */
  lemma {:induction false} CaseMattersIff(isIp: string -> bool, env: Env, state: AdBlockState, disk: Disk,
      query: string, r: Option<AdBlockAction>, s: Option<AdBlockAction>)
    requires ReadsHosts(isIp, env) && forall w :: w in state.whitelist ==> IsHostname(w)
    requires Decides(RebuildOf(env, ReadingOf(state, disk)), query, r)
    requires Decides(RebuildOf(env, ReadingOf(state, disk)), Lower(query), s)
    ensures r == s <==> CapitalsDoNotMatter(env, state, disk, query)
  {
    AnswerIsListed(isIp, env, state, disk, query, r);
    AnswerIsListed(isIp, env, state, disk, Lower(query), s);
    ListsAreParsed(isIp, env, state, disk);
    ListedAlikeIff(env, state, disk, query);
  }

  // -------------------------------------------------------------------------
  // What the drill-down promises
  // -------------------------------------------------------------------------

  /** The label claims what the engine will answer, but it ignores the master switch, and the
      engine lets a parent domain decide. The two agree exactly on whitelisted domains and, with
      the switch on, on domains an NXDOMAIN source lists or lists no parent of. */
  lemma {:induction false} EngineAgreesIff(isIp: string -> bool, env: Env, state: AdBlockState, disk: Disk,
      k: nat, d: string, r: Option<AdBlockAction>)
    requires ReadsHosts(isIp, env)
    requires d in Shared(EnabledDomains(env, state.sources, disk), k)
    requires Decides(RebuildOf(env, ReadingOf(state, disk)), d, r)
    ensures Within(Covering(EnabledDomains(env, state.sources, disk), d), |state.sources|)
    ensures Matches(EntryFor(state, EnabledDomains(env, state.sources, disk), k, d).effective, r) <==>
      Covers(TextSet(state.whitelist), d)
      || (state.enabled
          && ((exists j :: Lists(env, state.sources, disk, NxDomain, d, j))
              || !Blocked(env, state, disk, NxDomain, d)))
  {
    AllCoveringSmall(env, state.sources, disk);
    SharedIsListed(env, state, disk, k, d);
    ListsAreParsed(isIp, env, state, disk);
    LabelsFromTheRight(d);
    AgreementByLabel(env, state, disk, k, d, r);
    CoveringNxDomain(env, state.sources, disk, d);
    if state.enabled {
      RulesCoverIff(env, state, disk, NxDomain, d);
    }
  }

  lemma {:induction false} SharedIsListed(env: Env, state: AdBlockState, disk: Disk, k: nat, d: string)
    requires d in Shared(EnabledDomains(env, state.sources, disk), k)
    ensures exists response :: Lists(env, state.sources, disk, response, d, k)
  {
    EnabledDomainsShape(env, state.sources, disk);
    BucketMeansShared(EnabledDomains(env, state.sources, disk), k, d);
    CoveringLists(env, state.sources, disk, d, k);
  }

  lemma {:induction false} ListedTwiceIsShared(env: Env, state: AdBlockState, disk: Disk, response: Response,
      d: string, j: nat, k: nat)
    requires Lists(env, state.sources, disk, response, d, j) && Lists(env, state.sources, disk, response, d, k)
    requires j != k
    ensures d in Shared(EnabledDomains(env, state.sources, disk), k)
  {
    var loaded := EnabledDomains(env, state.sources, disk);
    CoveringLists(env, state.sources, disk, d, j);
    CoveringLists(env, state.sources, disk, d, k);
    assert SharedWith(loaded, k, d);
  }

  // -------------------------------------------------------------------------
  // Inputs where a promise fails
  // -------------------------------------------------------------------------

  function SourceNumber(id: SourceId, response: Response): Source {
    Source(id, "", "", true, response, Domains, None, None, 0, None, None)
  }

  /** A name that survives the cache. */
  ghost predicate Cacheable(d: string) {
    IsHostname(d) && !Numeric(d)
  }

  lemma {:induction false} CachedDomainIsRead(isIp: string -> bool, d: string)
    requires isIp("0.0.0.0") && Cacheable(d)
    ensures ParseBlocklist(isIp, Format.Hosts, Canon([d])).domains == [d]
  {
    HostnameIsValidUnlessNumeric(d);
    CanonHasItsLines([d]);
    CanonLinesReadBack(isIp, [d]);
    FilterAgrees(IsValidDomain, IsValidDomain, [d]);
  }

  /** Two zero-address sources have `child` in the cache, an NXDOMAIN source has `parent`. */
  ghost predicate Overlooked(state: AdBlockState, disk: Disk, child: string, parent: string) {
    && disk == map[1 := Canon([child]), 2 := Canon([child]), 3 := Canon([parent])]
    && state == AdBlockState(true,
                  [SourceNumber(1, ZeroAddress), SourceNumber(2, ZeroAddress), SourceNumber(3, NxDomain)], [], true, 24)
  }

  lemma {:induction false} OverlookedLists(isIp: string -> bool, env: Env, state: AdBlockState, disk: Disk,
      child: string, parent: string)
    requires ReadsHosts(isIp, env) && isIp("0.0.0.0") && Cacheable(child) && Cacheable(parent)
    requires Overlooked(state, disk, child, parent)
    ensures forall response, d, k :: Lists(env, state.sources, disk, response, d, k) <==>
              (response == ZeroAddress && d == child && k < 2) || (response == NxDomain && d == parent && k == 2)
  {
    CachedDomainIsRead(isIp, child);
    CachedDomainIsRead(isIp, parent);
  }

  /** The drill-down promises a zero address for the child, the engine refuses it. */
  lemma {:induction false} ParentRuleIsOverlooked(isIp: string -> bool, env: Env, state: AdBlockState, disk: Disk,
      child: string, parent: string, r: Option<AdBlockAction>)
    requires ReadsHosts(isIp, env) && isIp("0.0.0.0") && Cacheable(child) && Cacheable(parent)
    requires child != parent && IsSuffixAtDot(parent, child) && Overlooked(state, disk, child, parent)
    requires Decides(RebuildOf(env, ReadingOf(state, disk)), child, r)
    ensures var loaded := EnabledDomains(env, state.sources, disk);
      && child in Shared(loaded, 0) && Within(Covering(loaded, child), |state.sources|)
      && EntryFor(state, loaded, 0, child).effective == ZeroAddressWins
      && r == Some(BlockNxDomain)
  {
    OverlookedLists(isIp, env, state, disk, child, parent);
    ListedTwiceIsShared(env, state, disk, ZeroAddress, child, 1, 0);
    AllCoveringSmall(env, state.sources, disk);
    CoveringNxDomain(env, state.sources, disk, child);
    AnswerIsListed(isIp, env, state, disk, child, r);
    assert Lists(env, state.sources, disk, NxDomain, parent, 2);
  }

  /** One NXDOMAIN source has `d` in the cache. */
  ghost predicate OneList(state: AdBlockState, disk: Disk, d: string) {
    disk == map[1 := Canon([d])] && state == AdBlockState(true, [SourceNumber(1, NxDomain)], [], true, 24)
  }

  lemma {:induction false} OneListLists(isIp: string -> bool, env: Env, state: AdBlockState, disk: Disk, d: string)
    requires ReadsHosts(isIp, env) && isIp("0.0.0.0") && Cacheable(d) && OneList(state, disk, d)
    ensures forall response, e, k :: Lists(env, state.sources, disk, response, e, k) <==>
              response == NxDomain && e == d && k == 0
  {
    CachedDomainIsRead(isIp, d);
  }

  /** It refuses `d` and lets every spelling of `d` with capitals pass. */
  lemma {:induction false} CapitalsPass(isIp: string -> bool, env: Env, state: AdBlockState, disk: Disk, d: string,
      query: string, r: Option<AdBlockAction>, s: Option<AdBlockAction>)
    requires ReadsHosts(isIp, env) && isIp("0.0.0.0") && Cacheable(d) && OneList(state, disk, d)
    requires Lower(query) == d && query != d
    requires Decides(RebuildOf(env, ReadingOf(state, disk)), query, r)
    requires Decides(RebuildOf(env, ReadingOf(state, disk)), d, s)
    ensures r == None && s == Some(BlockNxDomain)
  {
    OneListLists(isIp, env, state, disk, d);
    AnswerIsListed(isIp, env, state, disk, query, r);
    AnswerIsListed(isIp, env, state, disk, d, s);
    assert Lists(env, state.sources, disk, NxDomain, d, 0) && IsSuffixAtDot(d, d);
  }

  /** There are such names: b is a parent of a.b, and B is b with a capital. */
  lemma {:induction false} SampleNames()
    ensures Cacheable("b") && Cacheable("a.b") && IsSuffixAtDot("b", "a.b") && Lower("B") == "b"
  {
    var labels := ["a", "b"];
    assert Join(labels[1..], '.') == "b" && Join(labels, '.') == "a.b";
    assert forall l :: l in labels ==> IsLabel(l);
    assert Join(["b"], '.') == "b" && IsLabel("b");
    assert 'b' in "b" && 'b' in "a.b" && !DigitOrDot('b');
    assert "a.b"[1..] == ".b";
  }
}
