/** Merging the rules of enabled profiles: one rule per domain, or a conflict. */
module Merge {
  import opened Base
  import opened Sorting
  import opened Profiles

  datatype ResolvedRule = ResolvedRule(ip: IpAddr, domain: string, profileId: ProfileId, profileName: string)

  datatype Conflict = Conflict(domain: string, rules: seq<ResolvedRule>)

  datatype MergeResult = MergeResult(rules: seq<ResolvedRule>, conflicts: seq<Conflict>)

  // -------------------------------------------------------------------------
  // One resolved rule per address and domain
  // -------------------------------------------------------------------------

  function OfDomains(p: Profile, ip: IpAddr, domains: seq<string>): seq<ResolvedRule> {
    seq(|domains|, i requires 0 <= i < |domains| => ResolvedRule(ip, domains[i], p.id, p.name))
  }

  function OfRules(p: Profile, rules: seq<HostRule>): seq<ResolvedRule> {
    if rules == [] then []
    else
      var r := rules[|rules| - 1];
      OfRules(p, rules[..|rules| - 1]) + if r.enabled && r.ip.Some? then OfDomains(p, r.ip.value, r.domains) else []
  }

  /** Every mapping of every enabled rule of every enabled profile, in order. */
  function Expanded(profiles: seq<Profile>): seq<ResolvedRule> {
    if profiles == [] then []
    else
      var p := profiles[|profiles| - 1];
      Expanded(profiles[..|profiles| - 1]) + if p.enabled then OfRules(p, p.rules) else []
  }

  // -------------------------------------------------------------------------
  // Merging by plain definitions
  // -------------------------------------------------------------------------

  /** The addresses a domain is mapped to. */
  function IpsOf(all: seq<ResolvedRule>, domain: string): set<IpAddr> {
    set r | r in all && r.domain == domain :: r.ip
  }

  /** The first rule that maps this domain to this address. */
  function FirstFor(all: seq<ResolvedRule>, domain: string, ip: IpAddr): Option<ResolvedRule> {
    if all == [] then None
    else
      var before := FirstFor(all[..|all| - 1], domain, ip);
      var last := all[|all| - 1];
      if before.Some? then before
      else if last.domain == domain && last.ip == ip then Some(last)
      else None
  }

  ghost predicate Contested(all: seq<ResolvedRule>, domain: string) {
    |IpsOf(all, domain)| > 1
  }

  ghost function ContestedDomains(all: seq<ResolvedRule>): set<string> {
    set r | r in all && Contested(all, r.domain) :: r.domain
  }

  /** First rules of all mappings, of one domain, or of the uncontested domains. */
  ghost function Firsts(all: seq<ResolvedRule>): set<ResolvedRule> {
    set r | r in all && FirstFor(all, r.domain, r.ip) == Some(r)
  }

  ghost function FirstsOf(all: seq<ResolvedRule>, domain: string): set<ResolvedRule> {
    set r | r in Firsts(all) && r.domain == domain
  }

  ghost function Settled(all: seq<ResolvedRule>): set<ResolvedRule> {
    set r | r in Firsts(all) && !Contested(all, r.domain)
  }

  predicate RuleLe(a: ResolvedRule, b: ResolvedRule) {
    if a.domain == b.domain then IpLe(a.ip, b.ip) else TextLe(a.domain, b.domain)
  }

  predicate RuleByIp(a: ResolvedRule, b: ResolvedRule) {
    IpLe(a.ip, b.ip)
  }

  ghost function ConflictOf(all: seq<ResolvedRule>, domain: string): Conflict {
    Conflict(domain, InOrder(RuleByIp, FirstsOf(all, domain)))
  }

  ghost predicate IsConflictOf(all: seq<ResolvedRule>, domain: string, conflict: Conflict) {
    conflict == ConflictOf(all, domain)
  }

  ghost predicate IsMerge(all: seq<ResolvedRule>, r: MergeResult) {
    var contested := InOrder(TextLe, ContestedDomains(all));
    && r.rules == InOrder(RuleLe, Settled(all))
    && |r.conflicts| == |contested|
    && forall i :: 0 <= i < |contested| ==> IsConflictOf(all, contested[i], r.conflicts[i])
  }

  // -------------------------------------------------------------------------
  // Orders
  // -------------------------------------------------------------------------

  lemma {:induction false} RuleOrders()
    ensures TotalPreorder(RuleLe) && TotalPreorder(RuleByIp)
  {
    TextLeIsOrder();
    forall a, b ensures RuleLe(a, b) || RuleLe(b, a) {
      TextLeTotal(a.domain, b.domain);
    }
    forall a, b, c | RuleLe(a, b) && RuleLe(b, c) ensures RuleLe(a, c) {
      if a.domain == b.domain || b.domain == c.domain {
      } else {
        TextLeTransitive(a.domain, b.domain, c.domain);
        TextLeTotal(a.domain, b.domain);
      }
    }
  }

  lemma {:induction false} FirstsDoNotTie(all: seq<ResolvedRule>, domain: string)
    ensures NoTies(RuleLe, Settled(all)) && NoTies(RuleByIp, FirstsOf(all, domain))
  {
    TextLeIsOrder();
  }

  lemma {:induction false} FirstForExists(all: seq<ResolvedRule>, domain: string, ip: IpAddr)
    ensures FirstFor(all, domain, ip).Some? <==> ip in IpsOf(all, domain)
    ensures FirstFor(all, domain, ip).Some? ==>
              var f := FirstFor(all, domain, ip).value; f in all && f.domain == domain && f.ip == ip
  {
    if all != [] {
      var front, last := all[..|all| - 1], all[|all| - 1];
      FirstForExists(front, domain, ip);
      assert all == front + [last];
    }
  }

  lemma {:induction false} FirstForSnoc(all: seq<ResolvedRule>, r: ResolvedRule, domain: string, ip: IpAddr)
    ensures FirstFor(all + [r], domain, ip)
         == if FirstFor(all, domain, ip).Some? then FirstFor(all, domain, ip)
            else if r.domain == domain && r.ip == ip then Some(r)
            else None
  {
    assert (all + [r])[..|all|] == all;
  }

  // -------------------------------------------------------------------------
  // The merge
  // -------------------------------------------------------------------------

  method Expand(profiles: seq<Profile>) returns (all: seq<ResolvedRule>)
    ensures all == Expanded(profiles)
    ensures forall r :: r in all <==> exists p :: p in profiles && MapsTo(p, r)
  {
    all := [];
    for i := 0 to |profiles|
      invariant all == Expanded(profiles[..i])
    {
      assert profiles[..i + 1] == profiles[..i] + [profiles[i]];
      ExpandedSnoc(profiles[..i], profiles[i]);
      if profiles[i].enabled {
        var more := ExpandRules(profiles[i]);
        all := all + more;
      }
    }
    assert profiles[..|profiles|] == profiles;
    forall r ensures r in all <==> exists p :: p in profiles && MapsTo(p, r) {
      ExpandedMembers(profiles, r);
    }
  }

  method ExpandRules(p: Profile) returns (all: seq<ResolvedRule>)
    ensures all == OfRules(p, p.rules)
  {
    all := [];
    for j := 0 to |p.rules|
      invariant all == OfRules(p, p.rules[..j])
    {
      var r := p.rules[j];
      assert p.rules[..j + 1][..j] == p.rules[..j];
      if r.enabled && r.ip.Some? {
        all := all + OfDomains(p, r.ip.value, r.domains);
      }
    }
    assert p.rules[..|p.rules|] == p.rules;
  }

  lemma {:induction false} ExpandedSnoc(profiles: seq<Profile>, p: Profile)
    ensures Expanded(profiles + [p]) == Expanded(profiles) + if p.enabled then OfRules(p, p.rules) else []
  {
    assert (profiles + [p])[..|profiles|] == profiles;
  }

  /** The first table the merge fills: the first rule of each mapping. */
  ghost predicate FirstTable(all: seq<ResolvedRule>, byDomainIp: map<(string, IpAddr), ResolvedRule>) {
    && (forall d, ip :: (d, ip) in byDomainIp <==> FirstFor(all, d, ip).Some?)
    && (forall d, ip :: (d, ip) in byDomainIp ==> FirstFor(all, d, ip) == Some(byDomainIp[(d, ip)]))
  }

  /** The second one: the addresses of each domain. */
  ghost predicate IpTable(all: seq<ResolvedRule>, domainToIps: map<string, set<IpAddr>>) {
    && (forall d :: d in domainToIps <==> IpsOf(all, d) != {})
    && (forall d :: d in domainToIps ==> domainToIps[d] == IpsOf(all, d))
  }

  ghost predicate Tables(all: seq<ResolvedRule>, byDomainIp: map<(string, IpAddr), ResolvedRule>,
      domainToIps: map<string, set<IpAddr>>)
  {
    FirstTable(all, byDomainIp) && IpTable(all, domainToIps)
  }

  method FillTables(all: seq<ResolvedRule>)
    returns (byDomainIp: map<(string, IpAddr), ResolvedRule>, domainToIps: map<string, set<IpAddr>>)
    ensures Tables(all, byDomainIp, domainToIps)
  {
    byDomainIp, domainToIps := map[], map[];
    for i := 0 to |all|
      invariant Tables(all[..i], byDomainIp, domainToIps)
    {
      var r := all[i];
      assert all[..i + 1] == all[..i] + [r];
      ghost var (before, before') := (byDomainIp, domainToIps);
      var ips := if r.domain in domainToIps then domainToIps[r.domain] else {};
      domainToIps := domainToIps[r.domain := ips + {r.ip}];
      if (r.domain, r.ip) !in byDomainIp {
        byDomainIp := byDomainIp[(r.domain, r.ip) := r];
      }
      EnterFirst(all[..i], r, before);
      EnterIp(all[..i], r, before');
    }
    assert all[..|all|] == all;
  }

  lemma {:induction false} EnterFirst(all: seq<ResolvedRule>, r: ResolvedRule,
      byDomainIp: map<(string, IpAddr), ResolvedRule>)
    requires FirstTable(all, byDomainIp)
    ensures FirstTable(all + [r],
                       if (r.domain, r.ip) in byDomainIp then byDomainIp else byDomainIp[(r.domain, r.ip) := r])
  {
    forall d, ip
      ensures FirstFor(all + [r], d, ip)
           == if FirstFor(all, d, ip).Some? then FirstFor(all, d, ip)
              else if r.domain == d && r.ip == ip then Some(r)
              else None
    {
      FirstForSnoc(all, r, d, ip);
    }
  }

  lemma {:induction false} EnterIp(all: seq<ResolvedRule>, r: ResolvedRule, domainToIps: map<string, set<IpAddr>>)
    requires IpTable(all, domainToIps)
    ensures IpTable(all + [r],
                    domainToIps[r.domain :=
                      (if r.domain in domainToIps then domainToIps[r.domain] else {}) + {r.ip}])
  {
    forall d ensures IpsOf(all + [r], d) == IpsOf(all, d) + if r.domain == d then {r.ip} else {} {
      IpsSnoc(all, r, d);
    }
  }

  lemma {:induction false} IpsSnoc(all: seq<ResolvedRule>, r: ResolvedRule, d: string)
    ensures IpsOf(all + [r], d) == IpsOf(all, d) + if r.domain == d then {r.ip} else {}
  {
    assert forall x :: x in all + [r] <==> x in all || x == r;
  }

  /** Adding a new element to both a list and the set it lists. */
  lemma {:induction false} ListOneMore<T>(listed: seq<T>, s: set<T>, x: T)
    requires multiset(listed) == multiset(s) && x !in s
    ensures multiset(listed + [x]) == multiset(s + {x})
  {
    assert multiset(s + {x}) == multiset(s) + multiset{x};
  }

  /** Domains with more than one address, sorted. */
  method CollectContested(domainToIps: map<string, set<IpAddr>>, ghost all: seq<ResolvedRule>)
    returns (domains: seq<string>)
    requires forall d :: d in domainToIps <==> IpsOf(all, d) != {}
    requires forall d :: d in domainToIps ==> domainToIps[d] == IpsOf(all, d)
    ensures domains == InOrder(TextLe, ContestedDomains(all))
  {
    var rest := domainToIps.Keys;
    var found: seq<string> := [];
    ghost var listed: set<string> := {};
    while rest != {}
      invariant rest <= domainToIps.Keys
      invariant multiset(found) == multiset(listed)
      invariant forall d :: d in listed <==> d in domainToIps && d !in rest && Contested(all, d)
      decreases |rest|
    {
      var d :| d in rest;
      rest := rest - {d};
      if |domainToIps[d]| > 1 {
        ListOneMore(found, listed, d);
        found := found + [d];
        listed := listed + {d};
      }
    }
    ContestedIsMapped(all);
    assert listed == ContestedDomains(all);
    TextLeIsOrder();
    InOrderIs(TextLe, listed, found);
    domains := Sort(TextLe, found);
  }

  lemma {:induction false} ContestedIsMapped(all: seq<ResolvedRule>)
    ensures forall d :: d in ContestedDomains(all) <==> IpsOf(all, d) != {} && Contested(all, d)
  {
    forall d | IpsOf(all, d) != {} && Contested(all, d) ensures d in ContestedDomains(all) {
      var ip :| ip in IpsOf(all, d);
    }
    forall d | d in ContestedDomains(all) ensures IpsOf(all, d) != {} {
      var r :| r in all && r.domain == d;
      assert r.ip in IpsOf(all, d);
    }
  }

  lemma {:induction false} FirstIsFirst(all: seq<ResolvedRule>, d: string, ip: IpAddr)
    requires FirstFor(all, d, ip).Some?
    ensures var r := FirstFor(all, d, ip).value; r in FirstsOf(all, d) && r.domain == d && r.ip == ip
  {
    FirstForExists(all, d, ip);
  }

  /** The rules of one contested domain, taken out of the table in no particular order. */
  method TakeConflict(byDomainIp: map<(string, IpAddr), ResolvedRule>, ips: set<IpAddr>, d: string,
      ghost all: seq<ResolvedRule>)
    returns (conflict: Conflict, left: map<(string, IpAddr), ResolvedRule>)
    requires ips == IpsOf(all, d)
    requires forall ip :: ip in ips ==> (d, ip) in byDomainIp && FirstFor(all, d, ip) == Some(byDomainIp[(d, ip)])
    ensures IsConflictOf(all, d, conflict)
    ensures forall k :: k in left <==> k in byDomainIp && (k.0 != d || k.1 !in ips)
    ensures forall k :: k in left ==> left[k] == byDomainIp[k]
  {
    left := byDomainIp;
    var rest := ips;
    var found: seq<ResolvedRule> := [];
    ghost var listed: set<ResolvedRule> := {};
    while rest != {}
      invariant rest <= ips
      invariant multiset(found) == multiset(listed)
      invariant forall r :: r in listed <==> r in FirstsOf(all, d) && r.ip in ips && r.ip !in rest
      invariant forall k :: k in left <==> k in byDomainIp && (k.0 != d || k.1 in rest || k.1 !in ips)
      invariant forall k :: k in left ==> left[k] == byDomainIp[k]
      decreases |rest|
    {
      var ip :| ip in rest;
      rest := rest - {ip};
      var r := left[(d, ip)];
      FirstIsFirst(all, d, ip);
      left := left - {(d, ip)};
      ListOneMore(found, listed, r);
      found := found + [r];
      listed := listed + {r};
    }
    assert forall r :: r in FirstsOf(all, d) ==> r.ip in ips;
    assert listed == FirstsOf(all, d);
    RuleOrders();
    FirstsDoNotTie(all, d);
    InOrderIs(RuleByIp, listed, found);
    conflict := Conflict(d, Sort(RuleByIp, found));
  }

  /** What is left in the table, without contested domains, sorted. */
  method CollectSettled(left: map<(string, IpAddr), ResolvedRule>, contested: seq<string>, ghost all: seq<ResolvedRule>)
    returns (rules: seq<ResolvedRule>)
    requires forall d :: d in contested <==> d in ContestedDomains(all)
    requires Left(all, left, contested)
    ensures rules == InOrder(RuleLe, Settled(all))
  {
    var rest := left.Keys;
    var found: seq<ResolvedRule> := [];
    ghost var listed: set<ResolvedRule> := {};
    ContestedIsMapped(all);
    while rest != {}
      invariant rest <= left.Keys
      invariant multiset(found) == multiset(listed)
      invariant forall r :: r in listed <==> r in Settled(all) && (r.domain, r.ip) in left && (r.domain, r.ip) !in rest
      decreases |rest|
    {
      var k :| k in rest;
      rest := rest - {k};
      FirstIsFirst(all, k.0, k.1);
      FirstForExists(all, k.0, k.1);
      if k.0 !in contested {
        ListOneMore(found, listed, left[k]);
        found := found + [left[k]];
        listed := listed + {left[k]};
      }
    }
    forall r | r in Settled(all) ensures r in listed {
      FirstForExists(all, r.domain, r.ip);
    }
    assert listed == Settled(all);
    RuleOrders();
    FirstsDoNotTie(all, "");
    InOrderIs(RuleLe, listed, found);
    rules := Sort(RuleLe, found);
  }

  /** The table of first rules after the rules of the domains `gone` have been taken out. */
  ghost predicate Left(all: seq<ResolvedRule>, left: map<(string, IpAddr), ResolvedRule>, gone: seq<string>) {
    && (forall k :: k in left ==> FirstFor(all, k.0, k.1) == Some(left[k]))
    && (forall d, ip :: FirstFor(all, d, ip).Some? && d !in gone ==> (d, ip) in left)
  }

  lemma {:induction false} StillThere(all: seq<ResolvedRule>, left: map<(string, IpAddr), ResolvedRule>,
      gone: seq<string>, d: string)
    requires Left(all, left, gone) && d !in gone
    ensures forall ip :: ip in IpsOf(all, d) ==> (d, ip) in left && FirstFor(all, d, ip) == Some(left[(d, ip)])
  {
    forall ip | ip in IpsOf(all, d) ensures (d, ip) in left {
      FirstForExists(all, d, ip);
    }
  }

  lemma {:induction false} TakenOut(all: seq<ResolvedRule>, left: map<(string, IpAddr), ResolvedRule>,
      gone: seq<string>, d: string,
                 left': map<(string, IpAddr), ResolvedRule>)
    requires Left(all, left, gone)
    requires forall k :: k in left' <==> k in left && (k.0 != d || k.1 !in IpsOf(all, d))
    requires forall k :: k in left' ==> left'[k] == left[k]
    ensures Left(all, left', gone + [d])
  {
  }

  method TakeNext(before: map<(string, IpAddr), ResolvedRule>, ips: set<IpAddr>, d: string, ghost gone: seq<string>,
                  ghost all: seq<ResolvedRule>)
    returns (conflict: Conflict, left: map<(string, IpAddr), ResolvedRule>)
    requires Left(all, before, gone) && d !in gone && ips == IpsOf(all, d)
    ensures IsConflictOf(all, d, conflict) && Left(all, left, gone + [d])
  {
    StillThere(all, before, gone, d);
    conflict, left := TakeConflict(before, ips, d, all);
    TakenOut(all, before, gone, d, left);
  }

  ghost predicate ConflictsOf(all: seq<ResolvedRule>, domains: seq<string>, conflicts: seq<Conflict>) {
    |conflicts| == |domains| && forall j :: 0 <= j < |domains| ==> IsConflictOf(all, domains[j], conflicts[j])
  }

  method TakeConflicts(byDomainIp: map<(string, IpAddr), ResolvedRule>, domainToIps: map<string, set<IpAddr>>,
                       contested: seq<string>, ghost all: seq<ResolvedRule>)
    returns (conflicts: seq<Conflict>, left: map<(string, IpAddr), ResolvedRule>)
    requires Left(all, byDomainIp, []) && NoDuplicates(contested)
    requires forall i :: 0 <= i < |contested| ==>
        contested[i] in domainToIps && domainToIps[contested[i]] == IpsOf(all, contested[i])
    ensures ConflictsOf(all, contested, conflicts) && Left(all, left, contested)
  {
    conflicts, left := [], byDomainIp;
    for i := 0 to |contested|
      invariant ConflictsOf(all, contested[..i], conflicts) && Left(all, left, contested[..i])
    {
      var d := contested[i];
      assert d !in contested[..i] && contested[..i + 1] == contested[..i] + [d];
      var conflict;
      conflict, left := TakeNext(left, domainToIps[d], d, contested[..i], all);
      conflicts := conflicts + [conflict];
    }
    assert contested[..|contested|] == contested;
  }

  method Merged(profiles: seq<Profile>) returns (result: MergeResult)
    ensures IsMerge(Expanded(profiles), result)
  {
    var all := Expand(profiles);
    var byDomainIp, domainToIps := FillTables(all);
    var contested := CollectContested(domainToIps, all);
    TextLeIsOrder();
    InOrderIncreases(TextLe, ContestedDomains(all));
    ContestedIsMapped(all);
    var conflicts, left := TakeConflicts(byDomainIp, domainToIps, contested, all);
    var rules := CollectSettled(left, contested, all);
    result := MergeResult(rules, conflicts);
  }

  // -------------------------------------------------------------------------
  // What a merge means
  // -------------------------------------------------------------------------

  /** Every mapping ends up either among the rules, with its domain's only address, or in the
      conflict of its domain; nothing else does. Domains appear once. */
  lemma {:induction false} MergePartitions(all: seq<ResolvedRule>, m: MergeResult, d: string, ip: IpAddr)
    requires IsMerge(all, m)
    ensures (exists r :: r in m.rules && r.domain == d && r.ip == ip) <==> IpsOf(all, d) == {ip}
    ensures (exists c, r :: c in m.conflicts && c.domain == d && r in c.rules && r.ip == ip)
       <==> ip in IpsOf(all, d) && |IpsOf(all, d)| > 1
  {
    RuleOrders();
    TextLeIsOrder();
    InOrderIncreases(RuleLe, Settled(all));
    InOrderIncreases(TextLe, ContestedDomains(all));
    InOrderIncreases(RuleByIp, FirstsOf(all, d));
    ContestedIsMapped(all);
    FirstForExists(all, d, ip);
    var ips := IpsOf(all, d);
    if ip in ips {
      FirstIsFirst(all, d, ip);
      OneAddress(ips, ip);
      if Contested(all, d) {
        var contested := InOrder(TextLe, ContestedDomains(all));
        var i :| 0 <= i < |contested| && contested[i] == d;
        assert m.conflicts[i] in m.conflicts && IsConflictOf(all, d, m.conflicts[i]);
      }
    }
  }

  ghost predicate SameMapping(q: ResolvedRule, r: ResolvedRule) {
    q.domain == r.domain && q.ip == r.ip
  }

  /** Nothing before it maps the same domain to the same address. */
  ghost predicate FirstAt(all: seq<ResolvedRule>, r: ResolvedRule, k: int) {
    0 <= k < |all| && all[k] == r && forall j :: 0 <= j < k ==> !SameMapping(all[j], r)
  }

  ghost predicate IsFirst(all: seq<ResolvedRule>, r: ResolvedRule) {
    exists k :: FirstAt(all, r, k)
  }

  lemma {:induction false} FirstForIsFirst(all: seq<ResolvedRule>, r: ResolvedRule)
    requires FirstFor(all, r.domain, r.ip) == Some(r)
    ensures IsFirst(all, r)
  {
    var last := |all| - 1;
    FirstForExists(all[..last], r.domain, r.ip);
    if FirstFor(all[..last], r.domain, r.ip).Some? {
      FirstForIsFirst(all[..last], r);
      var k :| FirstAt(all[..last], r, k);
      assert FirstAt(all, r, k) by {
        assert forall j :: 0 <= j < last ==> all[..last][j] == all[j];
      }
    } else {
      NoneBefore(all[..last], r);
      assert FirstAt(all, r, last) by {
        assert forall j :: 0 <= j < last ==> all[..last][j] == all[j];
      }
    }
  }

  lemma {:induction false} NoneBefore(all: seq<ResolvedRule>, r: ResolvedRule)
    requires r.ip !in IpsOf(all, r.domain)
    ensures forall j :: 0 <= j < |all| ==> !SameMapping(all[j], r)
  {
    forall j | 0 <= j < |all| ensures !SameMapping(all[j], r) {
      assert all[j] in all;
    }
  }

  /** IPv4 before IPv6, then by value. */
  ghost predicate Precedes(a: IpAddr, b: IpAddr) {
    (a.V4? && b.V6?) || (a.V4? == b.V4? && a.bits < b.bits)
  }

  /** Rules are listed by domain, every domain once. */
  lemma {:induction false} RulesAreSorted(all: seq<ResolvedRule>, m: MergeResult)
    requires IsMerge(all, m)
    ensures forall i, j :: 0 <= i < j < |m.rules| ==>
              TextLe(m.rules[i].domain, m.rules[j].domain) && m.rules[i].domain != m.rules[j].domain
    ensures forall r :: r in m.rules ==> IsFirst(all, r)
  {
    RuleOrders();
    InOrderIncreases(RuleLe, Settled(all));
    forall i, j | 0 <= i < j < |m.rules|
      ensures TextLe(m.rules[i].domain, m.rules[j].domain) && m.rules[i].domain != m.rules[j].domain
    {
      var q, r := m.rules[i], m.rules[j];
      assert q in Settled(all) && r in Settled(all) && RuleLe(q, r);
      if q.domain == r.domain {
        assert q.ip in IpsOf(all, q.domain) && r.ip in IpsOf(all, q.domain);
        OneAddress(IpsOf(all, q.domain), q.ip);
        assert false;
      }
    }
    forall r | r in m.rules ensures IsFirst(all, r) {
      FirstForIsFirst(all, r);
    }
  }

  lemma {:induction false} ConflictAt(all: seq<ResolvedRule>, m: MergeResult, i: nat)
    requires IsMerge(all, m) && i < |m.conflicts|
    ensures |m.conflicts| == |InOrder(TextLe, ContestedDomains(all))|
    ensures m.conflicts[i] == ConflictOf(all, InOrder(TextLe, ContestedDomains(all))[i])
  {
    assert IsConflictOf(all, InOrder(TextLe, ContestedDomains(all))[i], m.conflicts[i]);
  }

  /** Conflicts are listed by domain, every domain once. */
  lemma {:induction false} ConflictsAreListed(all: seq<ResolvedRule>, m: MergeResult)
    requires IsMerge(all, m)
    ensures forall i, j :: 0 <= i < j < |m.conflicts| ==>
              TextLe(m.conflicts[i].domain, m.conflicts[j].domain) && m.conflicts[i].domain != m.conflicts[j].domain
  {
    TextLeIsOrder();
    InOrderIncreases(TextLe, ContestedDomains(all));
    forall i, j | 0 <= i < j < |m.conflicts|
      ensures TextLe(m.conflicts[i].domain, m.conflicts[j].domain) && m.conflicts[i].domain != m.conflicts[j].domain
    {
      ConflictAt(all, m, i);
      ConflictAt(all, m, j);
    }
  }

  /** The rules of a conflict are listed by address, every address once. */
  lemma {:induction false} ConflictsAreSorted(all: seq<ResolvedRule>, m: MergeResult)
    requires IsMerge(all, m)
    ensures forall c :: c in m.conflicts ==> IsSortedConflict(all, c)
  {
    forall c | c in m.conflicts ensures IsSortedConflict(all, c) {
      var i :| 0 <= i < |m.conflicts| && m.conflicts[i] == c;
      ConflictAt(all, m, i);
      ConflictIsSorted(all, c.domain);
    }
  }

  ghost predicate IsSortedConflict(all: seq<ResolvedRule>, c: Conflict) {
    && (forall i, j :: 0 <= i < j < |c.rules| ==> Precedes(c.rules[i].ip, c.rules[j].ip))
    && (forall r :: r in c.rules ==> r.domain == c.domain && IsFirst(all, r))
  }

  lemma {:induction false} ConflictIsSorted(all: seq<ResolvedRule>, d: string)
    ensures IsSortedConflict(all, ConflictOf(all, d))
  {
    RuleOrders();
    InOrderIncreases(RuleByIp, FirstsOf(all, d));
    var rules := ConflictOf(all, d).rules;
    forall r | r in rules ensures r.domain == d && IsFirst(all, r) {
      FirstForIsFirst(all, r);
    }
    forall i, j | 0 <= i < j < |rules| ensures Precedes(rules[i].ip, rules[j].ip) {
      assert rules[i] in FirstsOf(all, d) && rules[j] in FirstsOf(all, d) && RuleByIp(rules[i], rules[j]);
      assert rules[i] != rules[j];
    }
  }

  lemma {:induction false} OneAddress(ips: set<IpAddr>, ip: IpAddr)
    requires ip in ips
    ensures |ips| > 1 <==> ips != {ip}
  {
    assert ips == {ip} + (ips - {ip});
    if |ips| == 1 {
      assert |ips - {ip}| == 0;
    }
  }

  /** A merge is free of conflicts exactly if no domain is mapped to two addresses. */
  lemma {:induction false} ConflictFreeIff(all: seq<ResolvedRule>, m: MergeResult)
    requires IsMerge(all, m)
    ensures m.conflicts == [] <==>
              forall q, r :: q in all && r in all && q.domain == r.domain ==> q.ip == r.ip
  {
    TextLeIsOrder();
    InOrderIncreases(TextLe, ContestedDomains(all));
    forall q, r | q in all && r in all && q.domain == r.domain && q.ip != r.ip
      ensures q.domain in ContestedDomains(all)
    {
      assert q.ip in IpsOf(all, q.domain) && r.ip in IpsOf(all, q.domain);
      OneAddress(IpsOf(all, q.domain), q.ip);
    }
    if d :| d in ContestedDomains(all) {
      var q :| q in all && q.domain == d && Contested(all, d);
      OneAddress(IpsOf(all, d), q.ip);
      var ip :| ip in IpsOf(all, d) && ip != q.ip;
      var r :| r in all && r.domain == d && r.ip == ip;
    }
  }

  /** The profile is enabled and an enabled rule of it maps this domain to this address. */
  ghost predicate MapsTo(p: Profile, r: ResolvedRule) {
    && p.enabled && r.profileId == p.id && r.profileName == p.name
    && exists rule :: rule in p.rules && rule.enabled && rule.ip == Some(r.ip) && r.domain in rule.domains
  }

  lemma {:induction false} OfRulesMembers(p: Profile, rules: seq<HostRule>, r: ResolvedRule)
    ensures r in OfRules(p, rules) <==>
      && r.profileId == p.id && r.profileName == p.name
      && exists rule :: rule in rules && rule.enabled && rule.ip == Some(r.ip) && r.domain in rule.domains
  {
    if rules != [] {
      var front, last := rules[..|rules| - 1], rules[|rules| - 1];
      OfRulesMembers(p, front, r);
      assert rules == front + [last];
      if last.enabled && last.ip.Some? {
        OfDomainsMembers(p, last.ip.value, last.domains, r);
      }
    }
  }

  lemma {:induction false} OfDomainsMembers(p: Profile, ip: IpAddr, domains: seq<string>, r: ResolvedRule)
    ensures r in OfDomains(p, ip, domains) <==>
      r.profileId == p.id && r.profileName == p.name && r.ip == ip && r.domain in domains
  {
    if r.profileId == p.id && r.profileName == p.name && r.ip == ip && r.domain in domains {
      var i :| 0 <= i < |domains| && domains[i] == r.domain;
      assert OfDomains(p, ip, domains)[i] == r;
    }
  }

  /** What is merged: exactly the mappings of enabled rules of enabled profiles. */
  lemma {:induction false} ExpandedMembers(profiles: seq<Profile>, r: ResolvedRule)
    ensures r in Expanded(profiles) <==> exists p :: p in profiles && MapsTo(p, r)
  {
    if profiles != [] {
      var front, last := profiles[..|profiles| - 1], profiles[|profiles| - 1];
      ExpandedMembers(front, r);
      assert profiles == front + [last];
      OfRulesMembers(last, last.rules, r);
      if p :| p in profiles && MapsTo(p, r) {
        assert p in front || p == last;
      }
      if r in Expanded(profiles) && r !in Expanded(front) {
        assert MapsTo(last, r) && last in profiles;
      }
    }
  }

  ghost predicate Maps(profiles: seq<Profile>, domain: string, ip: IpAddr) {
    exists p, r :: p in profiles && MapsTo(p, r) && r.domain == domain && r.ip == ip
  }

  /** From profiles to plan: an address stands in the rules exactly if it is the only one that
      enabled profiles map the domain to. */
  lemma {:induction false} RulesOfProfiles(profiles: seq<Profile>, m: MergeResult, d: string, ip: IpAddr)
    requires IsMerge(Expanded(profiles), m)
    ensures (exists r :: r in m.rules && r.domain == d && r.ip == ip) <==>
              Maps(profiles, d, ip) && forall other :: Maps(profiles, d, other) ==> other == ip
  {
    var ips := IpsOf(Expanded(profiles), d);
    forall a ensures a in ips <==> Maps(profiles, d, a) {
      MappedIps(profiles, d, a);
    }
    MergePartitions(Expanded(profiles), m, d, ip);
    assert ips == {ip} <==> ip in ips && forall other :: other in ips ==> other == ip;
  }

  /** There is a conflict about a domain exactly if enabled profiles map it to two addresses. */
  lemma {:induction false} ConflictsOfProfiles(profiles: seq<Profile>, m: MergeResult, d: string)
    requires IsMerge(Expanded(profiles), m)
    ensures (exists c :: c in m.conflicts && c.domain == d) <==>
              exists a, b :: a != b && Maps(profiles, d, a) && Maps(profiles, d, b)
  {
    forall a ensures a in IpsOf(Expanded(profiles), d) <==> Maps(profiles, d, a) {
      MappedIps(profiles, d, a);
    }
    ConflictIsContested(Expanded(profiles), m, d);
    ContestedIff(Expanded(profiles), d);
  }

  lemma {:induction false} MappedIps(profiles: seq<Profile>, d: string, ip: IpAddr)
    ensures ip in IpsOf(Expanded(profiles), d) <==> Maps(profiles, d, ip)
  {
    if ip in IpsOf(Expanded(profiles), d) {
      var r :| r in Expanded(profiles) && r.domain == d && r.ip == ip;
      ExpandedMembers(profiles, r);
    }
    if p, r :| p in profiles && MapsTo(p, r) && r.domain == d && r.ip == ip {
      ExpandedMembers(profiles, r);
    }
  }

  lemma {:induction false} ConflictIsContested(all: seq<ResolvedRule>, m: MergeResult, d: string)
    requires IsMerge(all, m)
    ensures (exists c :: c in m.conflicts && c.domain == d) <==> d in ContestedDomains(all)
  {
    TextLeIsOrder();
    InOrderIncreases(TextLe, ContestedDomains(all));
    var domains := InOrder(TextLe, ContestedDomains(all));
    forall i | 0 <= i < |domains| ensures m.conflicts[i].domain == domains[i] && m.conflicts[i] in m.conflicts {
      assert IsConflictOf(all, domains[i], m.conflicts[i]);
    }
    assert d in ContestedDomains(all) <==> exists i :: 0 <= i < |domains| && domains[i] == d;
  }

  lemma {:induction false} ContestedIff(all: seq<ResolvedRule>, d: string)
    ensures d in ContestedDomains(all) <==> exists a, b :: a != b && a in IpsOf(all, d) && b in IpsOf(all, d)
  {
    if a, b :| a != b && a in IpsOf(all, d) && b in IpsOf(all, d) {
      OneAddress(IpsOf(all, d), a);
      var r :| r in all && r.domain == d && r.ip == a;
    }
    if d in ContestedDomains(all) {
      var r :| r in all && r.domain == d;
      OneAddress(IpsOf(all, d), r.ip);
      var b :| b in IpsOf(all, d) && b != r.ip;
    }
  }

  /** The result does not depend on table order: there is exactly one merge. */
  lemma {:induction false} MergeIsUnique(all: seq<ResolvedRule>, m: MergeResult, n: MergeResult)
    requires IsMerge(all, m) && IsMerge(all, n)
    ensures m == n
  {
    forall i | 0 <= i < |m.conflicts| ensures m.conflicts[i] == n.conflicts[i] {
      assert IsConflictOf(all, InOrder(TextLe, ContestedDomains(all))[i], m.conflicts[i]);
      assert IsConflictOf(all, InOrder(TextLe, ContestedDomains(all))[i], n.conflicts[i]);
    }
  }
}
