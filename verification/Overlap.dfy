/** Which enabled sources list the same domains: the per-source counts and the drill-down. */
module Overlap {
  import opened Base
  import opened AdBlockModel
  import opened Sorting
  import opened RuleInputs
  import opened ReloadGate
  import opened Trie
  import opened Engine

  /** The parsed domains of an enabled source and its position in the source list. */
  type Listing = (nat, seq<string>)

  // -------------------------------------------------------------------------
  // Plain definitions
  // -------------------------------------------------------------------------

  /** Positions of the sources that list `d`, in source order. */
  function Covering(loaded: seq<Listing>, d: string): (r: seq<nat>)
    ensures |r| <= |loaded|
    ensures forall k :: k in r <==> exists l :: l in loaded && l.0 == k && d in l.1
  {
    if loaded == [] then []
    else
      var last := loaded[|loaded| - 1];
      assert loaded == loaded[..|loaded| - 1] + [last];
      Covering(loaded[..|loaded| - 1], d) + if d in last.1 then [last.0] else []
  }

  /** Positions increase: one listing per source. */
  ghost predicate Ordered(loaded: seq<Listing>) {
    forall i, j :: 0 <= i < j < |loaded| ==> loaded[i].0 < loaded[j].0
  }

  /** The domains source `k` shares with at least one other enabled source. */
  ghost function Shared(loaded: seq<Listing>, k: nat): set<string> {
    set l, d | l in loaded && l.0 == k && d in l.1 && SharedWith(loaded, k, d) :: d
  }

  ghost predicate SharedWith(loaded: seq<Listing>, k: nat, d: string) {
    exists m :: m in loaded && m.0 != k && d in m.1
  }

  lemma {:induction false} CoveringIncreases(loaded: seq<Listing>, d: string)
    requires Ordered(loaded)
    ensures forall i, j :: 0 <= i < j < |Covering(loaded, d)| ==> Covering(loaded, d)[i] < Covering(loaded, d)[j]
  {
    if loaded != [] {
      var front := loaded[..|loaded| - 1];
      CoveringIncreases(front, d);
      CoveringBefore(front, d, loaded[|loaded| - 1].0);
    }
  }

  lemma {:induction false} CoveringBefore(loaded: seq<Listing>, d: string, n: nat)
    requires forall i :: 0 <= i < |loaded| ==> loaded[i].0 < n
    ensures forall i :: 0 <= i < |Covering(loaded, d)| ==> Covering(loaded, d)[i] < n
  {
    var c := Covering(loaded, d);
    forall i | 0 <= i < |c| ensures c[i] < n {
      assert c[i] in c;
      var l :| l in loaded && l.0 == c[i] && d in l.1;
    }
  }

  /** Two entries in a bucket, one of them `k`: exactly a domain that `k` shares. */
  lemma {:induction false} BucketMeansShared(loaded: seq<Listing>, k: nat, d: string)
    requires Ordered(loaded)
    ensures d in Shared(loaded, k) <==> k in Covering(loaded, d) && |Covering(loaded, d)| >= 2
  {
    CoveringIncreases(loaded, d);
    var c := Covering(loaded, d);
    if k in c && |c| >= 2 {
      var i :| 0 <= i < |c| && c[i] == k;
      var other := if i == 0 then c[1] else c[0];
      assert other in c && other != k;
      assert SharedWith(loaded, k, d);
    }
    if d in Shared(loaded, k) {
      var l :| l in loaded && l.0 == k && d in l.1 && SharedWith(loaded, k, d);
      var m :| m in loaded && m.0 != k && d in m.1;
      assert k in c && m.0 in c;
      var i :| 0 <= i < |c| && c[i] == k;
      var j :| 0 <= j < |c| && c[j] == m.0;
      assert i != j;
    }
  }

  // -------------------------------------------------------------------------
  // The index
  // -------------------------------------------------------------------------

  /** `byDomain` is the index of `loaded`. */
  ghost predicate Indexes(byDomain: map<string, seq<nat>>, loaded: seq<Listing>) {
    forall d :: IndexedAt(byDomain, loaded, d)
  }

  ghost predicate IndexedAt(byDomain: map<string, seq<nat>>, loaded: seq<Listing>, d: string) {
    (d in byDomain <==> Covering(loaded, d) != []) && (d in byDomain ==> byDomain[d] == Covering(loaded, d))
  }

  /** The index while the domains `seen` of one more source at position `k` have been entered. */
  ghost predicate IndexesPartly(byDomain: map<string, seq<nat>>, loaded: seq<Listing>, k: nat, seen: seq<string>) {
    forall d :: PartlyAt(byDomain, loaded, k, seen, d)
  }

  ghost predicate PartlyAt(byDomain: map<string, seq<nat>>, loaded: seq<Listing>, k: nat, seen: seq<string>,
      d: string) {
    var expected := Covering(loaded, d) + if d in seen then [k] else [];
    (d in byDomain <==> expected != []) && (d in byDomain ==> byDomain[d] == expected)
  }

  /** Enters one domain; a source that lists it again is not entered twice. */
  method Enter(byDomain: map<string, seq<nat>>, k: nat, d: string, ghost loaded: seq<Listing>, ghost seen: seq<string>)
    returns (r: map<string, seq<nat>>)
    requires IndexesPartly(byDomain, loaded, k, seen) && k !in Covering(loaded, d)
    ensures IndexesPartly(r, loaded, k, seen + [d])
  {
    assert PartlyAt(byDomain, loaded, k, seen, d);
    var bucket := if d in byDomain then byDomain[d] else [];
    r := byDomain[d := if k in bucket then bucket else bucket + [k]];
    forall x ensures PartlyAt(r, loaded, k, seen + [d], x) {
      assert PartlyAt(byDomain, loaded, k, seen, x);
    }
  }

  method BuildIndex(loaded: seq<Listing>) returns (byDomain: map<string, seq<nat>>)
    requires Ordered(loaded)
    ensures Indexes(byDomain, loaded)
  {
    byDomain := map[];
    for i := 0 to |loaded|
      invariant Indexes(byDomain, loaded[..i])
    {
      var (k, domains) := loaded[i];
      ghost var before := loaded[..i];
      StartSource(byDomain, before, k);
      for j := 0 to |domains|
        invariant IndexesPartly(byDomain, before, k, domains[..j])
      {
        assert forall l :: l in before ==> l.0 < k;
        byDomain := Enter(byDomain, k, domains[j], before, domains[..j]);
        assert domains[..j + 1] == domains[..j] + [domains[j]];
      }
      assert domains[..|domains|] == domains;
      FinishSource(byDomain, before, k, domains);
      assert loaded[..i + 1] == before + [loaded[i]];
    }
    assert loaded[..|loaded|] == loaded;
  }

  lemma {:induction false} StartSource(byDomain: map<string, seq<nat>>, loaded: seq<Listing>, k: nat)
    requires Indexes(byDomain, loaded)
    ensures IndexesPartly(byDomain, loaded, k, [])
  {
    forall d ensures PartlyAt(byDomain, loaded, k, [], d) {
      assert IndexedAt(byDomain, loaded, d);
    }
  }

  lemma {:induction false} FinishSource(byDomain: map<string, seq<nat>>, loaded: seq<Listing>, k: nat,
      domains: seq<string>)
    requires IndexesPartly(byDomain, loaded, k, domains)
    ensures Indexes(byDomain, loaded + [(k, domains)])
  {
    var longer := loaded + [(k, domains)];
    assert longer[..|longer| - 1] == loaded;
    forall d ensures IndexedAt(byDomain, longer, d) {
      assert PartlyAt(byDomain, loaded, k, domains, d);
    }
  }

  // -------------------------------------------------------------------------
  // The report
  // -------------------------------------------------------------------------

  /** Domains of `keys` that lie in a bucket of two or more with `k` in it. */
  ghost function Counted(byDomain: map<string, seq<nat>>, keys: set<string>, k: nat): set<string> {
    set d | d in keys && d in byDomain && |byDomain[d]| >= 2 && k in byDomain[d]
  }

  lemma {:induction false} CountedIsShared(byDomain: map<string, seq<nat>>, loaded: seq<Listing>, k: nat)
    requires Ordered(loaded) && Indexes(byDomain, loaded)
    ensures Counted(byDomain, byDomain.Keys, k) == Shared(loaded, k)
  {
    forall d ensures d in Counted(byDomain, byDomain.Keys, k) <==> d in Shared(loaded, k) {
      assert IndexedAt(byDomain, loaded, d);
      BucketMeansShared(loaded, k, d);
    }
  }

  ghost predicate CountsFor(counts: seq<nat>, byDomain: map<string, seq<nat>>, keys: set<string>) {
    forall k :: 0 <= k < |counts| ==> counts[k] == |Counted(byDomain, keys, k)|
  }

  lemma {:induction false} CountedGrows(byDomain: map<string, seq<nat>>, keys: set<string>, d: string, k: nat)
    requires d in byDomain && d !in keys
    ensures |Counted(byDomain, keys + {d}, k)|
         == |Counted(byDomain, keys, k)| + if |byDomain[d]| >= 2 && k in byDomain[d] then 1 else 0
  {
    var more := if |byDomain[d]| >= 2 && k in byDomain[d] then {d} else {};
    assert Counted(byDomain, keys + {d}, k) == Counted(byDomain, keys, k) + more;
  }

  /** One more for every source of a bucket. */
  method CountBucket(counts: array<nat>, bucket: seq<nat>)
    requires NoDuplicates(bucket) && forall k :: k in bucket ==> k < counts.Length
    modifies counts
    ensures forall k :: 0 <= k < counts.Length ==> counts[k] == old(counts[k]) + if k in bucket then 1 else 0
  {
    for j := 0 to |bucket|
      invariant forall k :: 0 <= k < counts.Length ==> counts[k] == old(counts[k]) + if k in bucket[..j] then 1 else 0
    {
      assert bucket[..j + 1] == bucket[..j] + [bucket[j]];
      assert bucket[j] in bucket;
      counts[bucket[j]] := counts[bucket[j]] + 1;
    }
    assert bucket[..|bucket|] == bucket;
  }

  /** The buckets in no particular order. */
  method CountShared(byDomain: map<string, seq<nat>>, counts: array<nat>)
    requires forall d :: d in byDomain ==> NoDuplicates(byDomain[d])
    requires forall d, k :: d in byDomain && k in byDomain[d] ==> k < counts.Length
    requires forall k :: 0 <= k < counts.Length ==> counts[k] == 0
    modifies counts
    ensures CountsFor(counts[..], byDomain, byDomain.Keys)
  {
    var rest := byDomain.Keys;
    ghost var done: set<string> := {};
    assert forall k :: Counted(byDomain, {}, k) == {};
    while rest != {}
      invariant done + rest == byDomain.Keys && done !! rest
      invariant CountsFor(counts[..], byDomain, done)
      decreases |rest|
    {
      var d :| d in rest;
      ghost var before := counts[..];
      if |byDomain[d]| >= 2 {
        CountBucket(counts, byDomain[d]);
      }
      forall k | 0 <= k < counts.Length ensures counts[k] == |Counted(byDomain, done + {d}, k)| {
        assert before[k] == |Counted(byDomain, done, k)|;
        CountedGrows(byDomain, done, d, k);
      }
      done, rest := done + {d}, rest - {d};
    }
    assert done == byDomain.Keys;
  }

  datatype OverlapSummary = OverlapSummary(id: SourceId, name: string, count: nat)

  /** What the report says by the plain definition. */
  ghost function ReportOf(sources: seq<Source>, loaded: seq<Listing>): seq<OverlapSummary> {
    if sources == [] then []
    else
      var last := |sources| - 1;
      ReportOf(sources[..last], loaded)
        + if sources[last].enabled
            then [OverlapSummary(sources[last].id, sources[last].name, |Shared(loaded, last)|)]
            else []
  }

  lemma {:induction false} EnabledDomainsShape(env: Env, sources: seq<Source>, disk: Disk)
    ensures var loaded := EnabledDomains(env, sources, disk);
      && Ordered(loaded)
      && forall l :: l in loaded <==>
           l.0 < |sources| && sources[l.0].enabled && l.1 == env.parse(CacheText(disk, sources[l.0].id))
  {
    EnabledDomainsMembers(env, sources, disk);
    EnabledDomainsOrdered(env, sources, disk);
  }

  lemma {:induction false} EnabledDomainsMembers(env: Env, sources: seq<Source>, disk: Disk)
    ensures forall l :: l in EnabledDomains(env, sources, disk) <==>
              l.0 < |sources| && sources[l.0].enabled && l.1 == env.parse(CacheText(disk, sources[l.0].id))
  {
    if sources != [] {
      EnabledDomainsMembers(env, sources[..|sources| - 1], disk);
    }
  }

  lemma {:induction false} EnabledDomainsOrdered(env: Env, sources: seq<Source>, disk: Disk)
    ensures Ordered(EnabledDomains(env, sources, disk))
  {
    if sources != [] {
      var before := EnabledDomains(env, sources[..|sources| - 1], disk);
      EnabledDomainsOrdered(env, sources[..|sources| - 1], disk);
      EnabledDomainsMembers(env, sources[..|sources| - 1], disk);
      assert forall i :: 0 <= i < |before| ==> before[i] in before;
    }
  }

  lemma {:induction false} CoveringIsSmall(env: Env, sources: seq<Source>, disk: Disk, d: string)
    ensures forall k :: k in Covering(EnabledDomains(env, sources, disk), d) ==> k < |sources| && sources[k].enabled
    ensures NoDuplicates(Covering(EnabledDomains(env, sources, disk), d))
  {
    EnabledDomainsShape(env, sources, disk);
    CoveringIncreases(EnabledDomains(env, sources, disk), d);
  }

  lemma {:induction false} IndexIsSmall(env: Env, sources: seq<Source>, disk: Disk, byDomain: map<string, seq<nat>>)
    requires Indexes(byDomain, EnabledDomains(env, sources, disk))
    ensures forall d :: d in byDomain ==> NoDuplicates(byDomain[d])
    ensures forall d, k :: d in byDomain && k in byDomain[d] ==> k < |sources|
  {
    forall d | d in byDomain ensures NoDuplicates(byDomain[d]) && forall k :: k in byDomain[d] ==> k < |sources| {
      assert IndexedAt(byDomain, EnabledDomains(env, sources, disk), d);
      CoveringIsSmall(env, sources, disk, d);
    }
  }

  method ComputeOverlapReport(env: Env, state: AdBlockState, disk: Disk, gate: AdBlockReloadGate,
      ghost seen: set<string>)
    returns (report: seq<OverlapSummary>)
    requires EntriesSound(env, gate.parsed, seen) && CollisionFree(env.contentHash, seen)
    requires forall s :: s in state.sources ==> CacheText(disk, s.id) in seen
    modifies gate`parsed
    ensures report == ReportOf(state.sources, EnabledDomains(env, state.sources, disk))
    ensures EntriesSound(env, gate.parsed, seen)
  {
    var loaded := gate.LoadEnabledSourceDomains(env, state, disk, seen);
    report := ReportFrom(env, state.sources, disk, loaded);
  }

  method ReportFrom(env: Env, sources: seq<Source>, ghost disk: Disk, loaded: seq<Listing>)
    returns (report: seq<OverlapSummary>)
    requires loaded == EnabledDomains(env, sources, disk)
    ensures report == ReportOf(sources, loaded)
  {
    EnabledDomainsShape(env, sources, disk);
    var byDomain := BuildIndex(loaded);
    IndexIsSmall(env, sources, disk, byDomain);
    var counts := new nat[|sources|](_ => 0);
    CountShared(byDomain, counts);
    var total := counts[..];
    report := [];
    for i := 0 to |sources|
      invariant report == ReportOf(sources[..i], loaded)
    {
      ReportSnoc(sources[..i], sources[i], loaded);
      assert sources[..i + 1] == sources[..i] + [sources[i]];
      if sources[i].enabled {
        CountedIsShared(byDomain, loaded, i);
        report := report + [OverlapSummary(sources[i].id, sources[i].name, total[i])];
      }
    }
    assert sources[..|sources|] == sources;
  }

  lemma {:induction false} ReportSnoc(sources: seq<Source>, s: Source, loaded: seq<Listing>)
    ensures ReportOf(sources + [s], loaded)
         == ReportOf(sources, loaded)
              + if s.enabled then [OverlapSummary(s.id, s.name, |Shared(loaded, |sources|)|)] else []
  {
    assert (sources + [s])[..|sources|] == sources;
  }

  // -------------------------------------------------------------------------
  // The counts add up to the sizes of the shared buckets
  // -------------------------------------------------------------------------

  ghost function SumTo(n: nat, f: nat -> nat): nat {
    if n == 0 then 0 else SumTo(n - 1, f) + f(n - 1)
  }

  lemma {:induction false} SumSplits(n: nat, f: nat -> nat, g: nat -> nat, h: nat -> nat)
    requires forall k: nat :: k < n ==> f(k) == g(k) + h(k)
    ensures SumTo(n, f) == SumTo(n, g) + SumTo(n, h)
  {
    if n > 0 {
      SumSplits(n - 1, f, g, h);
    }
  }

  ghost function Membership(bucket: seq<nat>): nat -> nat {
    k => if k in bucket then 1 else 0
  }

  lemma {:induction false} SumOfMembership(n: nat, bucket: seq<nat>)
    requires NoDuplicates(bucket) && forall k :: k in bucket ==> k < n
    ensures SumTo(n, Membership(bucket)) == |bucket|
  {
    if bucket == [] {
      SumOfZero(n, Membership(bucket));
    } else {
      var front, last := bucket[..|bucket| - 1], bucket[|bucket| - 1];
      assert bucket == front + [last];
      assert last !in front && last in bucket && forall k :: k in front ==> k in bucket;
      SumOfMembership(n, front);
      SumSplits(n, Membership(bucket), Membership(front), Membership([last]));
      SumOfOne(n, last);
    }
  }

  lemma {:induction false} SumOfZero(n: nat, f: nat -> nat)
    requires forall k: nat :: k < n ==> f(k) == 0
    ensures SumTo(n, f) == 0
  {
    if n > 0 {
      SumOfZero(n - 1, f);
    }
  }

  lemma {:induction false} SumOfOne(n: nat, x: nat)
    requires x < n
    ensures SumTo(n, Membership([x])) == 1
  {
    if x == n - 1 {
      SumOfZero(n - 1, Membership([x]));
    } else {
      SumOfOne(n - 1, x);
    }
  }

  ghost function SharedSizes(loaded: seq<Listing>): nat -> nat {
    k => |Shared(loaded, k)|
  }

  /** Sizes of the buckets of `domains` with two or more sources. */
  ghost function BucketTotal(loaded: seq<Listing>, domains: seq<string>): nat {
    if domains == [] then 0
    else
      var size := |Covering(loaded, domains[|domains| - 1])|;
      BucketTotal(loaded, domains[..|domains| - 1]) + if size >= 2 then size else 0
  }

  /** Those of `domains` that source `k` shares. */
  ghost function SharedAmong(loaded: seq<Listing>, domains: seq<string>, k: nat): set<string> {
    set d | d in domains && d in Shared(loaded, k)
  }

  ghost function SizesAmong(loaded: seq<Listing>, domains: seq<string>): nat -> nat {
    k => |SharedAmong(loaded, domains, k)|
  }

  lemma {:induction false} DoubleCount(loaded: seq<Listing>, domains: seq<string>, n: nat)
    requires Ordered(loaded) && NoDuplicates(domains) && forall l :: l in loaded ==> l.0 < n
    ensures SumTo(n, SizesAmong(loaded, domains)) == BucketTotal(loaded, domains)
  {
    if domains == [] {
      assert forall k: nat :: SharedAmong(loaded, [], k) == {};
      SumOfZero(n, SizesAmong(loaded, domains));
    } else {
      var front, d := domains[..|domains| - 1], domains[|domains| - 1];
      assert domains == front + [d] && d !in front;
      DoubleCount(loaded, front, n);
      var bucket := if |Covering(loaded, d)| >= 2 then Covering(loaded, d) else [];
      CoveringIncreases(loaded, d);
      SumOfMembership(n, bucket);
      forall k: nat ensures SizesAmong(loaded, domains)(k) == SizesAmong(loaded, front)(k) + Membership(bucket)(k) {
        OneMoreDomain(loaded, front, d, k);
      }
      SumSplits(n, SizesAmong(loaded, domains), SizesAmong(loaded, front), Membership(bucket));
    }
  }

  lemma {:induction false} OneMoreDomain(loaded: seq<Listing>, front: seq<string>, d: string, k: nat)
    requires Ordered(loaded) && d !in front
    ensures |SharedAmong(loaded, front + [d], k)|
         == |SharedAmong(loaded, front, k)| + if |Covering(loaded, d)| >= 2 && k in Covering(loaded, d) then 1 else 0
  {
    BucketMeansShared(loaded, k, d);
    assert SharedAmong(loaded, front + [d], k)
        == SharedAmong(loaded, front, k) + if d in Shared(loaded, k) then {d} else {};
  }

  ghost function ReportTotal(report: seq<OverlapSummary>): nat {
    if report == [] then 0 else ReportTotal(report[..|report| - 1]) + report[|report| - 1].count
  }

  lemma {:induction false} ReportTotalIsSum(sources: seq<Source>, loaded: seq<Listing>)
    requires forall k: nat :: k < |sources| && !sources[k].enabled ==> Shared(loaded, k) == {}
    ensures ReportTotal(ReportOf(sources, loaded)) == SumTo(|sources|, SharedSizes(loaded))
  {
    if sources != [] {
      var last := |sources| - 1;
      ReportTotalIsSum(sources[..last], loaded);
      assert sources == sources[..last] + [sources[last]];
      ReportSnoc(sources[..last], sources[last], loaded);
      assert |sources[..last]| == last;
      var before := ReportOf(sources[..last], loaded);
      var row := OverlapSummary(sources[last].id, sources[last].name, |Shared(loaded, last)|);
      if sources[last].enabled {
        assert ReportOf(sources, loaded) == before + [row];
        ReportTotalSnoc(before, row);
      } else {
        assert ReportOf(sources, loaded) == before;
        assert Shared(loaded, last) == {};
      }
      assert SharedSizes(loaded)(last) == |Shared(loaded, last)|;
    }
  }

  lemma {:induction false} ReportTotalSnoc(report: seq<OverlapSummary>, s: OverlapSummary)
    ensures ReportTotal(report + [s]) == ReportTotal(report) + s.count
  {
    assert (report + [s])[..|report|] == report;
  }

  /** Whatever list of domains covers everything that is loaded: the counts of the report add up
      to the total size of the buckets with two or more sources. */
  lemma {:induction false} ReportAddsUp(env: Env, sources: seq<Source>, disk: Disk, domains: seq<string>)
    requires NoDuplicates(domains)
    requires forall l, d :: l in EnabledDomains(env, sources, disk) && d in l.1 ==> d in domains
    ensures ReportTotal(ReportOf(sources, EnabledDomains(env, sources, disk)))
         == BucketTotal(EnabledDomains(env, sources, disk), domains)
  {
    var loaded := EnabledDomains(env, sources, disk);
    EnabledDomainsShape(env, sources, disk);
    ReportTotalIsSum(sources, loaded);
    DoubleCount(loaded, domains, |sources|);
    forall k: nat ensures SharedSizes(loaded)(k) == SizesAmong(loaded, domains)(k) + Membership([])(k) {
      assert SharedAmong(loaded, domains, k) == Shared(loaded, k);
    }
    SumSplits(|sources|, SharedSizes(loaded), SizesAmong(loaded, domains), Membership([]));
    SumOfZero(|sources|, Membership([]));
  }

  // -------------------------------------------------------------------------
  // The drill-down
  // -------------------------------------------------------------------------

  const MAX_OVERLAP_DETAILS_PER_SOURCE: nat := 500

  datatype Effective = Whitelisted | NxDomainWins | ZeroAddressWins

  datatype OverlapSourceRef = OverlapSourceRef(id: SourceId, name: string, response: Response)

  datatype OverlapEntry = OverlapEntry(domain: string, coveredBy: seq<OverlapSourceRef>, effective: Effective)

  datatype OverlapDetails = OverlapDetails(id: SourceId, total: nat, truncated: bool, entries: seq<OverlapEntry>)

  /** The position of the first enabled source with this id. */
  function FirstEnabled(sources: seq<Source>, id: SourceId): (r: Option<nat>)
    ensures r.Some? ==> r.value < |sources| && sources[r.value].enabled && sources[r.value].id == id
    ensures forall s :: s in sources[..if r.Some? then r.value else |sources|] ==> !(s.enabled && s.id == id)
  {
    if sources == [] then None
    else if sources[0].enabled && sources[0].id == id then Some(0)
    else match FirstEnabled(sources[1..], id)
         case Some(k) => Some(k + 1)
         case None => None
  }

  predicate Within(covering: seq<nat>, n: nat) {
    forall j :: 0 <= j < |covering| ==> covering[j] < n
  }

  /** References to these sources, without source `k`. */
  function OtherSources(sources: seq<Source>, covering: seq<nat>, k: nat): (r: seq<OverlapSourceRef>)
    requires Within(covering, |sources|)
  {
    if covering == [] then []
    else
      var last := covering[|covering| - 1];
      OtherSources(sources, covering[..|covering| - 1], k)
        + if last != k then [OverlapSourceRef(sources[last].id, sources[last].name, sources[last].response)] else []
  }

  predicate AnyNxDomain(sources: seq<Source>, covering: seq<nat>)
    requires Within(covering, |sources|)
  {
    exists j :: 0 <= j < |covering| && sources[covering[j]].response == NxDomain
  }

  ghost function EntryFor(state: AdBlockState, loaded: seq<Listing>, k: nat, d: string): OverlapEntry
    requires Within(Covering(loaded, d), |state.sources|)
  {
    OverlapEntry(d, OtherSources(state.sources, Covering(loaded, d), k),
                 if Covers(TextSet(state.whitelist), d) then Whitelisted
                 else if AnyNxDomain(state.sources, Covering(loaded, d)) then NxDomainWins
                 else ZeroAddressWins)
  }

  /** The drill-down by the plain definitions. */
  ghost predicate IsDetails(state: AdBlockState, loaded: seq<Listing>, id: SourceId, r: OverlapDetails)
    requires forall d :: Within(Covering(loaded, d), |state.sources|)
  {
    match FirstEnabled(state.sources, id)
    case None => r == OverlapDetails(id, 0, false, [])
    case Some(k) =>
      var all := InOrder(TextLe, Shared(loaded, k));
      && r.id == id && r.total == |all| && r.truncated == (|all| > 500)
      && |r.entries| == (if |all| > 500 then 500 else |all|)
      && forall i :: 0 <= i < |r.entries| ==> r.entries[i] == EntryFor(state, loaded, k, all[i])
  }

  lemma {:induction false} UnitsSnoc(entries: seq<string>, d: string)
    ensures Units(TextSet(entries + [d])) == Units(TextSet(entries))[d := ()]
  {
    assert TextSet(entries + [d]) == TextSet(entries) + {d};
  }

  /** The whitelist as the engine would match it. */
  method BuildWhitelistMatcher(whitelist: seq<string>) returns (root: Node<()>)
    ensures Holds(root, Units(TextSet(whitelist)))
  {
    var trie := new Trie<()>();
    EmptyHolds<()>();
    assert Units(TextSet([])) == map[];
    for i := 0 to |whitelist|
      invariant Holds(trie.root, Units(TextSet(whitelist[..i])))
    {
      InsertHolds(trie.root, Units(TextSet(whitelist[..i])), whitelist[i], ());
      trie.Insert(whitelist[i], ());
      assert whitelist[..i + 1] == whitelist[..i] + [whitelist[i]];
      UnitsSnoc(whitelist[..i], whitelist[i]);
    }
    assert whitelist[..|whitelist|] == whitelist;
    root := trie.root;
  }

  lemma {:induction false} CollectOne(byDomain: map<string, seq<nat>>, keys: set<string>, d: string, k: nat,
      matching: seq<string>)
    requires d in byDomain && d !in keys
    requires multiset(matching) == multiset(Counted(byDomain, keys, k))
    ensures multiset(if |byDomain[d]| >= 2 && k in byDomain[d] then matching + [d] else matching)
         == multiset(Counted(byDomain, keys + {d}, k))
  {
    var before := Counted(byDomain, keys, k);
    var hit := |byDomain[d]| >= 2 && k in byDomain[d];
    assert Counted(byDomain, keys + {d}, k) == before + if hit then {d} else {};
    if hit {
      assert multiset(before + {d}) == multiset(before) + multiset{d};
    } else {
      assert before + {} == before;
    }
  }

  /** The domains of the buckets of source `k`, in no particular order. */
  method CollectShared(byDomain: map<string, seq<nat>>, k: nat) returns (matching: seq<string>)
    ensures multiset(matching) == multiset(Counted(byDomain, byDomain.Keys, k))
  {
    matching := [];
    var rest := byDomain.Keys;
    ghost var done: set<string> := {};
    assert Counted(byDomain, {}, k) == {};
    while rest != {}
      invariant done + rest == byDomain.Keys && done !! rest
      invariant multiset(matching) == multiset(Counted(byDomain, done, k))
      decreases |rest|
    {
      var d :| d in rest;
      CollectOne(byDomain, done, d, k, matching);
      if |byDomain[d]| >= 2 && k in byDomain[d] {
        matching := matching + [d];
      }
      done, rest := done + {d}, rest - {d};
    }
    assert done == byDomain.Keys;
  }

  /** The references of one entry, collected in bucket order. */
  method CollectOthers(sources: seq<Source>, covering: seq<nat>, k: nat) returns (refs: seq<OverlapSourceRef>)
    requires Within(covering, |sources|)
    ensures refs == OtherSources(sources, covering, k)
  {
    refs := [];
    for j := 0 to |covering|
      invariant refs == OtherSources(sources, covering[..j], k)
    {
      var i := covering[j];
      assert covering[..j + 1][..j] == covering[..j];
      if i != k {
        refs := refs + [OverlapSourceRef(sources[i].id, sources[i].name, sources[i].response)];
      }
    }
    assert covering[..|covering|] == covering;
  }

  method DescribeDomain(state: AdBlockState, whitelist: Node<()>, covering: seq<nat>, k: nat, d: string,
                        ghost loaded: seq<Listing>)
    returns (entry: OverlapEntry)
    requires Within(covering, |state.sources|)
    requires covering == Covering(loaded, d) && Holds(whitelist, Units(TextSet(state.whitelist)))
    ensures entry == EntryFor(state, loaded, k, d)
  {
    var others := CollectOthers(state.sources, covering, k);
    var allowed := FindLongestSuffixMatch(whitelist, d);
    WalkFindsClosest(whitelist, Units(TextSet(state.whitelist)), d);
    assert Units(TextSet(state.whitelist)).Keys == TextSet(state.whitelist);
    var effective :=
      if allowed.Some? then Whitelisted
      else if AnyNxDomain(state.sources, covering) then NxDomainWins
      else ZeroAddressWins;
    entry := OverlapEntry(d, others, effective);
  }

  /** The shared domains of source `k` in text order, with the index. */
  method SortedShared(loaded: seq<Listing>, k: nat) returns (sorted: seq<string>, byDomain: map<string, seq<nat>>)
    requires Ordered(loaded)
    ensures sorted == InOrder(TextLe, Shared(loaded, k))
    ensures forall d :: d in sorted ==> d in byDomain && byDomain[d] == Covering(loaded, d)
  {
    byDomain := BuildIndex(loaded);
    var matching := CollectShared(byDomain, k);
    CountedIsShared(byDomain, loaded, k);
    TextLeIsOrder();
    InOrderIs(TextLe, Shared(loaded, k), matching);
    InOrderIncreases(TextLe, Shared(loaded, k));
    sorted := Sort(TextLe, matching);
    forall d | d in sorted ensures d in byDomain && byDomain[d] == Covering(loaded, d) {
      BucketMeansShared(loaded, k, d);
      assert IndexedAt(byDomain, loaded, d);
    }
  }

  method DetailsFrom(state: AdBlockState, loaded: seq<Listing>, id: SourceId, k: nat) returns (r: OverlapDetails)
    requires Ordered(loaded) && FirstEnabled(state.sources, id) == Some(k)
    requires forall d :: Within(Covering(loaded, d), |state.sources|)
    ensures IsDetails(state, loaded, id, r)
  {
    var sorted, byDomain := SortedShared(loaded, k);
    var whitelist := BuildWhitelistMatcher(state.whitelist);
    var total := |sorted|;
    var shown := if total > MAX_OVERLAP_DETAILS_PER_SOURCE then MAX_OVERLAP_DETAILS_PER_SOURCE else total;
    var entries := DescribeDomains(state, whitelist, byDomain, loaded, k, sorted[..shown]);
    r := OverlapDetails(id, total, total > MAX_OVERLAP_DETAILS_PER_SOURCE, entries);
  }

  method DescribeDomains(state: AdBlockState, whitelist: Node<()>, byDomain: map<string, seq<nat>>,
      ghost loaded: seq<Listing>,
                         k: nat, domains: seq<string>)
    returns (entries: seq<OverlapEntry>)
    requires forall d :: Within(Covering(loaded, d), |state.sources|)
    requires Holds(whitelist, Units(TextSet(state.whitelist)))
    requires forall d :: d in domains ==> d in byDomain && byDomain[d] == Covering(loaded, d)
    ensures |entries| == |domains|
    ensures forall i :: 0 <= i < |entries| ==> entries[i] == EntryFor(state, loaded, k, domains[i])
  {
    entries := [];
    for i := 0 to |domains|
      invariant |entries| == i
      invariant forall j :: 0 <= j < i ==> entries[j] == EntryFor(state, loaded, k, domains[j])
    {
      assert domains[i] in domains && Within(Covering(loaded, domains[i]), |state.sources|);
      var entry := DescribeDomain(state, whitelist, byDomain[domains[i]], k, domains[i], loaded);
      entries := entries + [entry];
    }
  }

  lemma {:induction false} AllCoveringSmall(env: Env, sources: seq<Source>, disk: Disk)
    ensures forall d :: Within(Covering(EnabledDomains(env, sources, disk), d), |sources|)
  {
    forall d ensures Within(Covering(EnabledDomains(env, sources, disk), d), |sources|) {
      CoveringIsSmall(env, sources, disk, d);
      var c := Covering(EnabledDomains(env, sources, disk), d);
      assert forall j :: 0 <= j < |c| ==> c[j] in c;
    }
  }

  method ComputeOverlapDetails(env: Env, state: AdBlockState, disk: Disk, gate: AdBlockReloadGate, id: SourceId,
                               ghost seen: set<string>)
    returns (r: OverlapDetails)
    requires EntriesSound(env, gate.parsed, seen) && CollisionFree(env.contentHash, seen)
    requires forall s :: s in state.sources ==> CacheText(disk, s.id) in seen
    modifies gate`parsed
    ensures forall d :: Within(Covering(EnabledDomains(env, state.sources, disk), d), |state.sources|)
    ensures IsDetails(state, EnabledDomains(env, state.sources, disk), id, r)
    ensures EntriesSound(env, gate.parsed, seen)
  {
    AllCoveringSmall(env, state.sources, disk);
    var k := FirstEnabled(state.sources, id);
    if k == None {
      return OverlapDetails(id, 0, false, []);
    }
    var loaded := gate.LoadEnabledSourceDomains(env, state, disk, seen);
    EnabledDomainsShape(env, state.sources, disk);
    r := DetailsFrom(state, loaded, id, k.value);
  }

  // -------------------------------------------------------------------------
  // Report, drill-down, rules and engine side by side
  // -------------------------------------------------------------------------

  lemma {:induction false} ReportRow(sources: seq<Source>, loaded: seq<Listing>, k: nat)
    requires k < |sources| && sources[k].enabled
    ensures OverlapSummary(sources[k].id, sources[k].name, |Shared(loaded, k)|) in ReportOf(sources, loaded)
  {
    if k < |sources| - 1 {
      ReportRow(sources[..|sources| - 1], loaded, k);
    }
  }

  /** The count in the report is the total of the drill-down. */
  lemma {:induction false} CountIsTotal(state: AdBlockState, loaded: seq<Listing>, id: SourceId, r: OverlapDetails)
    requires forall d :: Within(Covering(loaded, d), |state.sources|)
    requires IsDetails(state, loaded, id, r)
    ensures match FirstEnabled(state.sources, id)
            case None => r.total == 0
            case Some(k) => r.total == |Shared(loaded, k)|
                            && OverlapSummary(id, state.sources[k].name, r.total) in ReportOf(state.sources, loaded)
  {
    var first := FirstEnabled(state.sources, id);
    if first.Some? {
      TextLeIsOrder();
      InOrderIncreases(TextLe, Shared(loaded, first.value));
      ReportRow(state.sources, loaded, first.value);
    }
  }

  /** The entries are the least shared domains, strictly increasing; a shared domain is missing
      only if the list was cut, and then it comes after every entry. */
  lemma {:induction false} EntriesAreLeast(state: AdBlockState, loaded: seq<Listing>, id: SourceId, r: OverlapDetails,
      k: nat)
    requires forall d :: Within(Covering(loaded, d), |state.sources|)
    requires IsDetails(state, loaded, id, r) && FirstEnabled(state.sources, id) == Some(k)
    ensures forall i :: 0 <= i < |r.entries| ==> r.entries[i].domain in Shared(loaded, k)
    ensures forall i, j :: 0 <= i < j < |r.entries| ==>
              TextLe(r.entries[i].domain, r.entries[j].domain) && r.entries[i].domain != r.entries[j].domain
    ensures forall d :: d in Shared(loaded, k) ==>
              (exists i :: 0 <= i < |r.entries| && r.entries[i].domain == d)
              || (r.truncated && forall i :: 0 <= i < |r.entries| ==> TextLe(r.entries[i].domain, d))
  {
    var all := InOrder(TextLe, Shared(loaded, k));
    FirstOnesAreLeast(Shared(loaded, k), |r.entries|);
    forall i | 0 <= i < |r.entries| ensures r.entries[i].domain == all[i] {
      assert r.entries[i] == EntryFor(state, loaded, k, all[i]);
    }
    forall d | d in Shared(loaded, k)
      ensures (exists i :: 0 <= i < |r.entries| && r.entries[i].domain == d)
           || (r.truncated && forall i :: 0 <= i < |r.entries| ==> TextLe(r.entries[i].domain, d))
    {
      if i :| 0 <= i < |r.entries| && all[i] == d {
        assert r.entries[i].domain == d;
      }
    }
  }

  /** The first `n` elements of a set in text order. */
  lemma {:induction false} FirstOnesAreLeast(s: set<string>, n: nat)
    requires n <= |InOrder(TextLe, s)|
    ensures forall i :: 0 <= i < n ==> InOrder(TextLe, s)[i] in s
    ensures forall i, j :: 0 <= i < j < n ==>
              TextLe(InOrder(TextLe, s)[i], InOrder(TextLe, s)[j]) && InOrder(TextLe, s)[i] != InOrder(TextLe, s)[j]
    ensures forall d :: d in s ==>
              (exists i :: 0 <= i < n && InOrder(TextLe, s)[i] == d)
              || (n < |InOrder(TextLe, s)| && forall i :: 0 <= i < n ==> TextLe(InOrder(TextLe, s)[i], d))
  {
    TextLeIsOrder();
    InOrderIncreases(TextLe, s);
    var all := InOrder(TextLe, s);
    forall d | d in s
      ensures (exists i :: 0 <= i < n && all[i] == d) || (n < |all| && forall i :: 0 <= i < n ==> TextLe(all[i], d))
    {
      var j :| 0 <= j < |all| && all[j] == d;
    }
  }

  function RefsTo(sources: seq<Source>, covering: seq<nat>): (r: seq<OverlapSourceRef>)
    requires Within(covering, |sources|)
    ensures |r| == |covering|
  {
    seq(|covering|, j requires 0 <= j < |covering| =>
      OverlapSourceRef(sources[covering[j]].id, sources[covering[j]].name, sources[covering[j]].response))
  }

  lemma {:induction false} OthersWithout(sources: seq<Source>, covering: seq<nat>, k: nat)
    requires Within(covering, |sources|) && k !in covering
    ensures OtherSources(sources, covering, k) == RefsTo(sources, covering)
  {
    if covering != [] {
      var front := covering[..|covering| - 1];
      OthersWithout(sources, front, k);
      assert covering[|covering| - 1] in covering;
      assert RefsTo(sources, covering)[..|front|] == RefsTo(sources, front);
    }
  }

  lemma {:induction false} OthersSkip(sources: seq<Source>, covering: seq<nat>, p: nat)
    requires Within(covering, |sources|) && NoDuplicates(covering) && p < |covering|
    ensures OtherSources(sources, covering, covering[p]) == RefsTo(sources, covering[..p] + covering[p + 1..])
  {
    var last := |covering| - 1;
    if p == last {
      OthersWithout(sources, covering[..last], covering[p]);
      assert covering[..p] + covering[p + 1..] == covering[..last];
    } else {
      OthersSkip(sources, covering[..last], p);
      assert covering[..p] + covering[p + 1..] == covering[..last][..p] + covering[..last][p + 1..] + [covering[last]];
    }
  }

  /** The sources of an entry: all that list the domain, in source order, except the one the
      drill-down is for. There is always one. */
  lemma {:induction false} CoveredByIsOthers(state: AdBlockState, loaded: seq<Listing>, k: nat, d: string)
    requires Ordered(loaded) && Within(Covering(loaded, d), |state.sources|) && d in Shared(loaded, k)
    ensures EntryFor(state, loaded, k, d).coveredBy != []
    ensures exists p :: 0 <= p < |Covering(loaded, d)| && Covering(loaded, d)[p] == k
              && EntryFor(state, loaded, k, d).coveredBy
                   == RefsTo(state.sources, Covering(loaded, d)[..p] + Covering(loaded, d)[p + 1..])
  {
    BucketMeansShared(loaded, k, d);
    CoveringIncreases(loaded, d);
    var c := Covering(loaded, d);
    var p :| 0 <= p < |c| && c[p] == k;
    OthersSkip(state.sources, c, p);
    assert |RefsTo(state.sources, c[..p] + c[p + 1..])| == |c| - 1;
  }

  /** Source `k` is enabled, answers this way and lists `d`. */
  ghost predicate Lists(env: Env, sources: seq<Source>, disk: Disk, response: Response, d: string, k: nat) {
    k < |sources| && sources[k].enabled && sources[k].response == response
    && d in env.parse(CacheText(disk, sources[k].id))
  }

  lemma {:induction false} CoveringLists(env: Env, sources: seq<Source>, disk: Disk, d: string, k: nat)
    ensures k in Covering(EnabledDomains(env, sources, disk), d) <==>
              Lists(env, sources, disk, ZeroAddress, d, k) || Lists(env, sources, disk, NxDomain, d, k)
  {
    EnabledDomainsShape(env, sources, disk);
    var loaded := EnabledDomains(env, sources, disk);
    if k < |sources| && sources[k].enabled {
      assert (k, env.parse(CacheText(disk, sources[k].id))) in loaded;
    }
  }

  /** The sources a rebuild reads, sorted: what one of them lists. */
  lemma {:induction false} AnsweringIsListed(env: Env, caches: seq<Cached>, response: Response, d: string)
    ensures d in DomainsAnswering(LoadAll(env, Sort(CachedById, caches)), response) <==>
              exists c :: c in caches && c.source.response == response && d in env.parse(c.content)
  {
    CachedByIdIsOrder();
    SortSorts(CachedById, caches);
    var sorted := Sort(CachedById, caches);
    var sources := LoadAll(env, sorted);
    if d in DomainsAnswering(sources, response) {
      var i :| 0 <= i < |sources| && sources[i].source.response == response && d in sources[i].domains;
      assert sorted[i] in caches;
    }
    if c :| c in caches && c.source.response == response && d in env.parse(c.content) {
      assert c in sorted;
      var i :| 0 <= i < |sorted| && sorted[i] == c;
      assert sources[i] in sources;
    }
  }

  lemma {:induction false} RuleDomains(env: Env, state: AdBlockState, disk: Disk, response: Response, d: string)
    requires state.enabled
    ensures d in DomainsAnswering(InputsOf(env, ReadingOf(state, disk)).sources, response) <==>
              exists k :: Lists(env, state.sources, disk, response, d, k)
  {
    var caches := ReadEnabled(state.sources, disk);
    AnsweringIsListed(env, caches, response, d);
    ReadEnabledMembers(state.sources, disk);
    if c :| c in caches && c.source.response == response && d in env.parse(c.content) {
      var k :| 0 <= k < |state.sources| && state.sources[k] == c.source;
      assert Lists(env, state.sources, disk, response, d, k);
    }
    if k: nat :| Lists(env, state.sources, disk, response, d, k) {
      assert Cached(state.sources[k], CacheText(disk, state.sources[k].id)) in caches;
    }
  }

  lemma {:induction false} CoveringNxDomain(env: Env, sources: seq<Source>, disk: Disk, d: string)
    requires Within(Covering(EnabledDomains(env, sources, disk), d), |sources|)
    ensures AnyNxDomain(sources, Covering(EnabledDomains(env, sources, disk), d)) <==>
              exists k :: Lists(env, sources, disk, NxDomain, d, k)
  {
    var c := Covering(EnabledDomains(env, sources, disk), d);
    forall j | 0 <= j < |c| && sources[c[j]].response == NxDomain ensures Lists(env, sources, disk, NxDomain, d, c[j]) {
      assert c[j] in c;
      CoveringLists(env, sources, disk, d, c[j]);
    }
    if k: nat :| Lists(env, sources, disk, NxDomain, d, k) {
      CoveringLists(env, sources, disk, d, k);
      var j :| 0 <= j < |c| && c[j] == k;
    }
  }

  /** With the master switch on, the label of an entry is what exact membership in the installed
      rule sets says. */
  lemma {:induction false} EffectiveIsMembership(env: Env, state: AdBlockState, disk: Disk, k: nat, d: string)
    requires state.enabled && d in Shared(EnabledDomains(env, state.sources, disk), k)
    requires Within(Covering(EnabledDomains(env, state.sources, disk), d), |state.sources|)
    ensures var rules := RebuildOf(env, ReadingOf(state, disk));
      match EntryFor(state, EnabledDomains(env, state.sources, disk), k, d).effective
      case Whitelisted => Covers(rules.whitelist, d)
      case NxDomainWins => !Covers(rules.whitelist, d) && d in rules.nxdomain
      case ZeroAddressWins => !Covers(rules.whitelist, d) && d !in rules.nxdomain && d in rules.zeroAddr
  {
    RuleDomains(env, state, disk, NxDomain, d);
    RuleDomains(env, state, disk, ZeroAddress, d);
    CoveringNxDomain(env, state.sources, disk, d);
    EnabledDomainsShape(env, state.sources, disk);
    BucketMeansShared(EnabledDomains(env, state.sources, disk), k, d);
    CoveringLists(env, state.sources, disk, d, k);
  }

  /** The engine's answer as the drill-down would word it. */
  ghost predicate Matches(effective: Effective, r: Option<AdBlockAction>) {
    match effective
    case Whitelisted => r == None
    case NxDomainWins => r == Some(BlockNxDomain)
    case ZeroAddressWins => r.Some? && r.value.BlockZeroAddress?
  }

  /** When label and engine agree, told by the label itself and the installed rules. */
  lemma {:induction false} AgreementByLabel(env: Env, state: AdBlockState, disk: Disk, k: nat, d: string,
      r: Option<AdBlockAction>)
    requires d in Shared(EnabledDomains(env, state.sources, disk), k) && Path(d) != []
    requires Within(Covering(EnabledDomains(env, state.sources, disk), d), |state.sources|)
    requires Decides(RebuildOf(env, ReadingOf(state, disk)), d, r)
    ensures var effective := EntryFor(state, EnabledDomains(env, state.sources, disk), k, d).effective;
      Matches(effective, r) <==>
      effective == Whitelisted
      || (state.enabled && (effective == NxDomainWins || !Covers(RebuildOf(env, ReadingOf(state, disk)).nxdomain, d)))
  {
    if state.enabled {
      EffectiveIsMembership(env, state, disk, k, d);
      assert IsParent(d, d);
    }
  }
}
