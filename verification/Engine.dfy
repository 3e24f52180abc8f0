/** The ad-block engine: rule sets in tries, the priority chain, the hit counters. */
module Engine {
  import opened Base
  import opened RuleInputs
  import opened Trie

  datatype AdBlockAction = BlockNxDomain | BlockZeroAddress(ip: Ip)

  datatype Snapshot = Snapshot(zeroAddr: Node<Ip>, nxdomain: Node<()>, whitelist: Node<()>)

  datatype Counters = Counters(zeroAddr: nat, nxdomain: nat, whitelist: nat, misses: nat)

  const COUNTER_LIMIT: nat := 0x1_0000_0000_0000_0000

  /** Counters are 64-bit and wrap. */
  function Bump(n: nat): (r: nat)
    ensures n < 0xFFFF_FFFF_FFFF_FFFF ==> r == n + 1
    ensures n == 0xFFFF_FFFF_FFFF_FFFF ==> r == 0
  {
    (n + 1) % COUNTER_LIMIT
  }

  function Units(domains: set<string>): map<string, ()> {
    map d | d in domains :: ()
  }

  // -------------------------------------------------------------------------
  // What a query should get
  // -------------------------------------------------------------------------

  /** The priority chain over plain rule sets: whitelist, then nxdomain, then zero address. */
  ghost predicate Decides(rules: Rules, query: string, r: Option<AdBlockAction>) {
    if !rules.enabled || Covers(rules.whitelist, query) then r == None
    else if Covers(rules.nxdomain, query) then r == Some(BlockNxDomain)
    else if Covers(rules.zeroAddr.Keys, query) then
      r.Some? && r.value.BlockZeroAddress?
      && exists d :: ClosestParent(rules.zeroAddr, d, query) && rules.zeroAddr[d] == r.value.ip
    else r == None
  }

  ghost predicate HasBlockRules(rules: Rules) {
    exists d :: (d in rules.zeroAddr || d in rules.nxdomain) && Path(d) != []
  }

  /** Which counter a query advances. With the master switch off, or with nothing to block and no
      whitelist hit, none does. */
  ghost function Counted(c: Counters, rules: Rules, query: string): Counters {
    if !rules.enabled then c
    else if Covers(rules.whitelist, query) then c.(whitelist := Bump(c.whitelist))
    else if !HasBlockRules(rules) then c
    else if Covers(rules.nxdomain, query) then c.(nxdomain := Bump(c.nxdomain))
    else if Covers(rules.zeroAddr.Keys, query) then c.(zeroAddr := Bump(c.zeroAddr))
    else c.(misses := Bump(c.misses))
  }

  /** How many counters differ. */
  function Changes(c: Counters, d: Counters): nat {
    (if c.zeroAddr != d.zeroAddr then 1 else 0) + (if c.nxdomain != d.nxdomain then 1 else 0)
    + (if c.whitelist != d.whitelist then 1 else 0) + (if c.misses != d.misses then 1 else 0)
  }

  lemma {:induction false} BumpChanges(n: nat)
    ensures Bump(n) != n
  {
  }

  /** With the master switch on exactly one counter is said to advance per query. That is so if and
      only if there is something to block or the whitelist matches; otherwise none does. */
  lemma {:induction false} OneCounterIff(c: Counters, rules: Rules, query: string)
    ensures Changes(c, Counted(c, rules, query)) == 1 <==>
              rules.enabled && (Covers(rules.whitelist, query) || HasBlockRules(rules))
    ensures Changes(c, Counted(c, rules, query)) != 1 ==> Counted(c, rules, query) == c
  {
    BumpChanges(c.zeroAddr);
    BumpChanges(c.nxdomain);
    BumpChanges(c.whitelist);
    BumpChanges(c.misses);
  }

  /** The master switch on and all sets empty: no counter advances. */
  lemma {:induction false} NoCounterAdvances(c: Counters, query: string)
    ensures Counted(c, Rules(true, map[], {}, {}), query) == c
  {
    OneCounterIff(c, Rules(true, map[], {}, {}), query);
  }

  class AdBlockEngine {
    var current: Snapshot
    var enabled: bool
    var counters: Counters

    /** The engine answers by these rules. */
    ghost predicate Installed(rules: Rules)
      reads this
    {
      && enabled == rules.enabled
      && Holds(current.zeroAddr, rules.zeroAddr)
      && Holds(current.nxdomain, Units(rules.nxdomain))
      && Holds(current.whitelist, Units(rules.whitelist))
    }

    constructor ()
      ensures Installed(Rules(false, map[], {}, {})) && counters == Counters(0, 0, 0, 0)
    {
      enabled := false;
      counters := Counters(0, 0, 0, 0);
      current := Snapshot(Node(None, map[]), Node(None, map[]), Node(None, map[]));
      new;
      EmptyHolds<Ip>();
      EmptyHolds<()>();
      assert Units({}) == map[];
    }

    /** Domains go in one by one in no particular order. */
    static method BuildTrie<T(!new)>(m: map<string, T>) returns (root: Node<T>)
      ensures Holds(root, m)
    {
      var trie := new Trie<T>();
      var rest := m.Keys;
      ghost var done: map<string, T> := map[];
      EmptyHolds<T>();
      while rest != {}
        invariant Holds(trie.root, done)
        invariant forall d :: d in m <==> d in done || d in rest
        invariant forall d :: d in done ==> d !in rest && done[d] == m[d]
        decreases |rest|
      {
        var d :| d in rest;
        InsertHolds(trie.root, done, d, m[d]);
        trie.Insert(d, m[d]);
        rest := rest - {d};
        done := done[d := m[d]];
      }
      assert done == m;
      root := trie.root;
    }

    /** The master switch, then all three sets in one swap. */
    method Reload(rules: Rules)
      modifies this`enabled, this`current
      ensures Installed(rules)
    {
      enabled := rules.enabled;
      var zeroAddr := BuildTrie(rules.zeroAddr);
      var nxdomain := BuildTrie(Units(rules.nxdomain));
      var whitelist := BuildTrie(Units(rules.whitelist));
      current := Snapshot(zeroAddr, nxdomain, whitelist);
    }

    method Check(query: string, ghost rules: Rules) returns (r: Option<AdBlockAction>)
      requires Installed(rules)
      modifies this`counters
      ensures Decides(rules, query, r)
      ensures counters == Counted(old(counters), rules, query)
      ensures Installed(rules)
    {
      if !enabled {
        return None;
      }
      assert Units(rules.whitelist).Keys == rules.whitelist && Units(rules.nxdomain).Keys == rules.nxdomain;
      WalkFindsClosest(current.whitelist, Units(rules.whitelist), query);
      WalkFindsClosest(current.nxdomain, Units(rules.nxdomain), query);
      WalkFindsClosest(current.zeroAddr, rules.zeroAddr, query);
      var allowed := FindLongestSuffixMatch(current.whitelist, query);
      if allowed.Some? {
        counters := counters.(whitelist := Bump(counters.whitelist));
        return None;
      }
      if IsEmpty(current.zeroAddr) && IsEmpty(current.nxdomain) {
        return None;
      }
      var refused := FindLongestSuffixMatch(current.nxdomain, query);
      if refused.Some? {
        counters := counters.(nxdomain := Bump(counters.nxdomain));
        return Some(BlockNxDomain);
      }
      var ip := FindLongestSuffixMatch(current.zeroAddr, query);
      if ip.Some? {
        counters := counters.(zeroAddr := Bump(counters.zeroAddr));
        return Some(BlockZeroAddress(ip.value));
      }
      counters := counters.(misses := Bump(counters.misses));
      return None;
    }
  }
}
