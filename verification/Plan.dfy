/** What applying the enabled profiles would do to the hosts file. */
module Plan {
  import opened Base
  import opened Sorting
  import opened Text
  import opened Profiles
  import opened Merge

  /** How addresses are printed, which lines the managed block of a hosts text holds, and the text
      with that block replaced. */
  datatype PlanEnv = PlanEnv(
    formatIp: IpAddr -> string,
    managed: string -> seq<string>,
    build: (string, seq<ResolvedRule>) -> string)

  datatype HostsDiff = HostsDiff(added: seq<string>, removed: seq<string>, common: seq<string>)

  datatype ApplyPlan = ApplyPlan(rules: seq<ResolvedRule>, conflicts: seq<Conflict>, diff: HostsDiff,
      backupRequired: bool)

  const EMPTY_PLAN := ApplyPlan([], [], HostsDiff([], [], []), false)

  /** One line per rule, each closed by a newline. */
  function TargetText(formatIp: IpAddr -> string, rules: seq<ResolvedRule>): string {
    if rules == [] then []
    else
      var last := rules[|rules| - 1];
      TargetText(formatIp, rules[..|rules| - 1]) + formatIp(last.ip) + " " + last.domain + "\n"
  }

  function LineSet(lines: seq<string>): set<string> {
    set l | l in lines
  }

  function Target(env: PlanEnv, rules: seq<ResolvedRule>): set<string> {
    LineSet(Lines(TargetText(env.formatIp, rules)))
  }

  function Existing(env: PlanEnv, hosts: string): set<string> {
    LineSet(env.managed(hosts))
  }

  ghost function DiffOf(target: set<string>, existing: set<string>): HostsDiff {
    HostsDiff(InOrder(TextLe, target - existing), InOrder(TextLe, existing - target),
        InOrder(TextLe, existing * target))
  }

  ghost predicate IsPlan(env: PlanEnv, profiles: seq<Profile>, hosts: string, plan: ApplyPlan) {
    && IsMerge(Expanded(profiles), MergeResult(plan.rules, plan.conflicts))
    && plan.diff == DiffOf(Target(env, plan.rules), Existing(env, hosts))
    && plan.backupRequired == (Target(env, plan.rules) != Existing(env, hosts))
  }

  /** The elements of a set, sorted. */
  method Listed(s: set<string>) returns (r: seq<string>)
    ensures r == InOrder(TextLe, s)
  {
    var rest := s;
    var found: seq<string> := [];
    ghost var done: set<string> := {};
    while rest != {}
      invariant rest <= s && done == s - rest
      invariant multiset(found) == multiset(done)
      decreases |rest|
    {
      var x :| x in rest;
      ListOneMore(found, done, x);
      rest, found := rest - {x}, found + [x];
      done := done + {x};
    }
    assert done == s;
    TextLeIsOrder();
    InOrderIs(TextLe, s, found);
    r := Sort(TextLe, found);
  }

  method WriteTarget(env: PlanEnv, rules: seq<ResolvedRule>) returns (text: string)
    ensures text == TargetText(env.formatIp, rules)
  {
    text := [];
    for i := 0 to |rules|
      invariant text == TargetText(env.formatIp, rules[..i])
    {
      assert rules[..i + 1][..i] == rules[..i];
      text := text + env.formatIp(rules[i].ip) + " " + rules[i].domain + "\n";
    }
    assert rules[..|rules|] == rules;
  }

  method CalculateDiff(env: PlanEnv, hosts: string, rules: seq<ResolvedRule>) returns (diff: HostsDiff)
    ensures diff == DiffOf(Target(env, rules), Existing(env, hosts))
  {
    var existing := LineSet(env.managed(hosts));
    var text := WriteTarget(env, rules);
    var target := LineSet(Lines(text));
    var added := Listed(target - existing);
    var removed := Listed(existing - target);
    var common := Listed(existing * target);
    diff := HostsDiff(added, removed, common);
  }

  lemma {:induction false} InOrderSize(s: set<string>)
    ensures |InOrder(TextLe, s)| == |s| && (InOrder(TextLe, s) == [] <==> s == {})
    ensures LineSet(InOrder(TextLe, s)) == s
  {
    TextLeIsOrder();
    InOrderIncreases(TextLe, s);
  }

  method GeneratePlan(env: PlanEnv, profiles: seq<Profile>, hosts: string) returns (plan: ApplyPlan)
    ensures IsPlan(env, profiles, hosts, plan)
  {
    var merged := Merged(profiles);
    var diff := CalculateDiff(env, hosts, merged.rules);
    InOrderSize(Target(env, merged.rules) - Existing(env, hosts));
    InOrderSize(Existing(env, hosts) - Target(env, merged.rules));
    plan := ApplyPlan(merged.rules, merged.conflicts, diff, diff.added != [] || diff.removed != []);
  }

  /** Added and common lines are the target, removed and common lines what is there. */
  lemma {:induction false} DiffConserves(env: PlanEnv, profiles: seq<Profile>, hosts: string, plan: ApplyPlan)
    requires IsPlan(env, profiles, hosts, plan)
    ensures LineSet(plan.diff.added) + LineSet(plan.diff.common) == Target(env, plan.rules)
    ensures LineSet(plan.diff.removed) + LineSet(plan.diff.common) == Existing(env, hosts)
    ensures LineSet(plan.diff.added) !! Existing(env, hosts) && LineSet(plan.diff.removed) !! Target(env, plan.rules)
    ensures plan.backupRequired <==> |plan.diff.added| + |plan.diff.removed| > 0
  {
    DiffSets(Target(env, plan.rules), Existing(env, hosts));
  }

  lemma {:induction false} DiffSets(target: set<string>, existing: set<string>)
    ensures var d := DiffOf(target, existing);
      && LineSet(d.added) + LineSet(d.common) == target && LineSet(d.removed) + LineSet(d.common) == existing
      && LineSet(d.added) !! existing && LineSet(d.removed) !! target
      && (target != existing <==> |d.added| + |d.removed| > 0)
  {
    InOrderSize(target - existing);
    InOrderSize(existing - target);
    InOrderSize(existing * target);
    assert target == (target - existing) + (existing * target);
    assert existing == (existing - target) + (existing * target);
  }

  // -------------------------------------------------------------------------
  // What a plan depends on
  // -------------------------------------------------------------------------

  /** Same id, name, flag and rules. */
  predicate SameForPlan(p: Profile, q: Profile) {
    p.id == q.id && p.name == q.name && p.enabled == q.enabled && p.rules == q.rules
  }

  predicate AllSameForPlan(ps: seq<Profile>, qs: seq<Profile>) {
    |ps| == |qs| && forall i :: 0 <= i < |ps| ==> SameForPlan(ps[i], qs[i])
  }

  lemma {:induction false} SameExpansion(ps: seq<Profile>, qs: seq<Profile>)
    requires AllSameForPlan(ps, qs)
    ensures Expanded(ps) == Expanded(qs)
  {
    if ps != [] {
      var p, q := ps[|ps| - 1], qs[|qs| - 1];
      SameExpansion(ps[..|ps| - 1], qs[..|qs| - 1]);
      SameRules(p, q, p.rules);
    }
  }

  lemma {:induction false} SameRules(p: Profile, q: Profile, rules: seq<HostRule>)
    requires p.id == q.id && p.name == q.name
    ensures OfRules(p, rules) == OfRules(q, rules)
  {
    if rules != [] {
      SameRules(p, q, rules[..|rules| - 1]);
    }
  }

  /** Profiles that agree on ids, names, flags and rules have the same plans. */
  lemma {:induction false} PlanIsDetermined(env: PlanEnv, ps: seq<Profile>, qs: seq<Profile>, hosts: string,
      plan: ApplyPlan)
    requires AllSameForPlan(ps, qs)
    ensures IsPlan(env, ps, hosts, plan) <==> IsPlan(env, qs, hosts, plan)
  {
    SameExpansion(ps, qs);
  }

  lemma {:induction false} PlanIsUnique(env: PlanEnv, ps: seq<Profile>, hosts: string, plan: ApplyPlan,
      plan': ApplyPlan)
    requires IsPlan(env, ps, hosts, plan) && IsPlan(env, ps, hosts, plan')
    ensures plan == plan'
  {
    MergeIsUnique(Expanded(ps), MergeResult(plan.rules, plan.conflicts), MergeResult(plan'.rules, plan'.conflicts));
  }
}
