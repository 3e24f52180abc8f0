/** The commands that change stored profiles, and what whole runs of them keep. */
module ProfileCommands {
  import opened Base
  import opened Text
  import opened Profiles
  import opened Plan
  import opened Apply

  // -------------------------------------------------------------------------
  // Fresh names
  // -------------------------------------------------------------------------

  const MAX_ITERATIONS: nat := 100

  function Digit(n: nat): char
    requires n < 10
  {
    "0123456789"[n]
  }

  function Decimal(n: nat): (r: string)
    ensures r != []
  {
    if n < 10 then [Digit(n)] else Decimal(n / 10) + [Digit(n % 10)]
  }

  /** The name itself, then "name (2)" to "name (100)". */
  function Candidate(name: string, k: nat): string {
    if k < 2 then name else name + " (" + Decimal(k) + ")"
  }

  function NamesOf(profiles: seq<Profile>): (r: seq<string>)
    ensures |r| == |profiles| && forall i :: 0 <= i < |r| ==> r[i] == profiles[i].name
  {
    seq(|profiles|, i requires 0 <= i < |profiles| => profiles[i].name)
  }

  predicate Taken(name: string, taken: seq<string>, k: nat) {
    Candidate(name, k) in taken
  }

  ghost predicate IsFirstFree(name: string, taken: seq<string>, from: nat, k: nat) {
    from <= k <= MAX_ITERATIONS && !Taken(name, taken, k) && forall j :: from <= j < k ==> Taken(name, taken, j)
  }

  /** The number of the first candidate from the k-th on that is not taken. */
  function FirstFree(name: string, taken: seq<string>, k: nat): (r: Option<nat>)
    ensures r.Some? ==> IsFirstFree(name, taken, k, r.value)
    ensures r.None? ==> forall j :: k <= j <= MAX_ITERATIONS ==> Taken(name, taken, j)
    decreases MAX_ITERATIONS + 1 - k
  {
    if k > MAX_ITERATIONS then None
    else if !Taken(name, taken, k) then Some(k)
    else FirstFree(name, taken, k + 1)
  }

  function FreeName(name: string, taken: seq<string>): (r: Option<string>)
    ensures r.Some? ==> r.value !in taken
  {
    match FirstFree(name, taken, 1)
    case Some(k) => assert !Taken(name, taken, k); Some(Candidate(name, k))
    case None => None
  }

  /** The first candidate no listed profile has; an error if all hundred are taken. */
  method ResolveNameConflict(name: string, listed: seq<Profile>) returns (r: Result<string, Error>)
    ensures FreeName(name, NamesOf(listed)) == if r.Ok? then Some(r.value) else None
    ensures r.Ok? ==> exists k :: IsFirstFree(name, NamesOf(listed), 1, k) && r.value == Candidate(name, k)
                                  && r.value == if k == 1 then name else name + " (" + Decimal(k) + ")"
    ensures r.Err? ==> r.error == Rejected && forall k :: 1 <= k <= MAX_ITERATIONS ==> Taken(name, NamesOf(listed), k)
  {
    var names := NamesOf(listed);
    if name !in names {
      return Ok(name);
    }
    var counter := 2;
    while counter <= MAX_ITERATIONS
      invariant 2 <= counter <= MAX_ITERATIONS + 1
      invariant FirstFree(name, names, 1) == FirstFree(name, names, counter)
    {
      var candidate := Candidate(name, counter);
      if candidate !in names {
        return Ok(candidate);
      }
      counter := counter + 1;
    }
    return Err(Rejected);
  }

  lemma {:induction false} DecimalInjective(m: nat, n: nat)
    requires Decimal(m) == Decimal(n)
    ensures m == n
  {
    assert m >= 10 ==> |Decimal(m)| >= 2;
    assert n >= 10 ==> |Decimal(n)| >= 2;
    if m >= 10 && n >= 10 {
      var a, b := Decimal(m / 10), Decimal(n / 10);
      assert a == Decimal(m)[..|Decimal(m)| - 1] && b == Decimal(n)[..|Decimal(n)| - 1];
      DecimalInjective(m / 10, n / 10);
      assert Decimal(m)[|a|] == Digit(m % 10) && Decimal(n)[|b|] == Digit(n % 10);
    }
  }

  lemma {:induction false} CandidatesDiffer(name: string, j: nat, k: nat)
    requires 1 <= j < k
    ensures Candidate(name, j) != Candidate(name, k)
  {
    if j >= 2 && Candidate(name, j) == Candidate(name, k) {
      var n := |name| + 2;
      assert Candidate(name, j)[n..|Candidate(name, j)| - 1] == Decimal(j);
      assert Candidate(name, k)[n..|Candidate(name, k)| - 1] == Decimal(k);
      DecimalInjective(j, k);
    }
  }

  /** The number that a string of digits stands for. */
  function Reading(digits: string): nat {
    if digits == [] then 0
    else
      var last := digits[|digits| - 1];
      10 * Reading(digits[..|digits| - 1]) + if '0' <= last <= '9' then (last as int) - ('0' as int) else 0
  }

  /** Numbers are written in decimal, without leading zeros. */
  lemma {:induction false} DecimalReads(n: nat)
    ensures Reading(Decimal(n)) == n && (n > 0 ==> Decimal(n)[0] != '0')
    ensures forall c :: c in Decimal(n) ==> '0' <= c <= '9'
  {
    if n < 10 {
      assert Decimal(n)[..0] == [];
      assert Reading([]) == 0;
    } else {
      DecimalReads(n / 10);
      assert Decimal(n)[..|Decimal(n)| - 1] == Decimal(n / 10);
    }
  }

  lemma {:induction false} SetNoLargerThanList(names: seq<string>)
    ensures |set n | n in names| <= |names|
  {
    if names != [] {
      SetNoLargerThanList(names[1..]);
      assert (set n | n in names) == {names[0]} + set n | n in names[1..];
    }
  }

  ghost function FirstCandidates(name: string, k: nat): set<string> {
    set j | 1 <= j <= k :: Candidate(name, j)
  }

  lemma {:induction false} CandidateCount(name: string, k: nat)
    ensures |FirstCandidates(name, k)| == k
  {
    if k == 0 {
      assert FirstCandidates(name, 0) == {};
    } else {
      CandidateCount(name, k - 1);
      var before := FirstCandidates(name, k - 1);
      forall j | 1 <= j < k ensures Candidate(name, j) != Candidate(name, k) {
        CandidatesDiffer(name, j, k);
      }
      assert FirstCandidates(name, k) == before + {Candidate(name, k)};
    }
  }

  /** A conflict cannot always be resolved, but it can whenever fewer than a hundred profiles are
      listed: the candidates are a hundred different names. */
  lemma {:induction false} FewProfilesLeaveAName(name: string, listed: seq<Profile>)
    requires |listed| < MAX_ITERATIONS
    ensures exists k :: 1 <= k <= MAX_ITERATIONS && !Taken(name, NamesOf(listed), k)
  {
    var names := NamesOf(listed);
    if forall k :: 1 <= k <= MAX_ITERATIONS ==> Taken(name, names, k) {
      var taken := set n | n in names;
      forall n | n in FirstCandidates(name, MAX_ITERATIONS) ensures n in taken {
        var k :| 1 <= k <= MAX_ITERATIONS && n == Candidate(name, k);
        assert Taken(name, names, k);
      }
      SubsetSize(FirstCandidates(name, MAX_ITERATIONS), taken);
      CandidateCount(name, MAX_ITERATIONS);
      SetNoLargerThanList(names);
      assert false;
    }
  }

  lemma {:induction false} SubsetSize<T>(a: set<T>, b: set<T>)
    requires a <= b
    ensures |a| <= |b|
  {
    if a != {} {
      var x :| x in a;
      SubsetSize(a - {x}, b - {x});
    }
  }

  lemma {:induction false} BearersAreNamed(ps: seq<Profile>)
    ensures forall p :: p in ps ==> p.name in NamesOf(ps)
  {
    forall p | p in ps ensures p.name in NamesOf(ps) {
      var i :| 0 <= i < |ps| && ps[i] == p;
      assert NamesOf(ps)[i] == p.name;
    }
  }

  /** Some stored DNS profile is called this. */
  predicate IsDnsName(name: string, ps: seq<Profile>) {
    exists p :: p in ps && p.mode == DnsMode && p.name == name
  }

  /** Only Hosts profiles are listed, so a name that is free among them is new to the store if and
      only if no DNS profile bears it; and if names were unique, they stay so if and only if that
      holds. */
  lemma {:induction false} FreshNameIff(ps: seq<Profile>, name: string, added: Profile)
    requires FreeName(name, NamesOf(Filter(OfMode(HostsMode), ps))) == Some(added.name)
    ensures added.name in NamesOf(ps) <==> IsDnsName(added.name, ps)
    ensures NoDuplicates(NamesOf(ps)) ==>
              (NoDuplicates(NamesOf(ps + [added])) <==> !IsDnsName(added.name, ps))
  {
    var listed := Filter(OfMode(HostsMode), ps);
    var names, after := NamesOf(ps), NamesOf(ps + [added]);
    BearersAreNamed(listed);
    BearersAreNamed(ps);
    assert after == names + [added.name];
    if i :| 0 <= i < |ps| && names[i] == added.name {
      assert ps[i] in ps && after[i] == after[|ps|];
    }
  }

  // -------------------------------------------------------------------------
  // Commands
  // -------------------------------------------------------------------------

  /** A stored-state change. `Add` is create, import and duplicate: the id is new. */
  datatype Command =
    | Add(p: Profile)
    | Delete(id: ProfileId)
    | Update(id: ProfileId, name: string, description: Option<string>, rules: seq<HostRule>, mode: Option<Mode>,
        now: nat)
    | Toggle(id: ProfileId, enabled: bool, now: nat)

  /** An edited profile keeps its id, flag, tags and protection; its mode changes only if given. */
  function Edited(p: Profile, c: Command): Profile
    requires c.Update?
  {
    p.(name := c.name, description := c.description, rules := c.rules,
       mode := if c.mode.Some? then c.mode.value else p.mode, updatedAt := c.now)
  }

  function After(c: Command, ps: seq<Profile>): seq<Profile> {
    match c
    case Add(p) => Saved(ps, p)
    case Delete(id) => Without(ps, id)
    case Update(id, _, _, _, _, _) =>
      (match Find(ps, id)
       case None => ps
       case Some(i) => ps[i := Edited(ps[i], c)])
    case Toggle(id, enabled, now) => AfterToggle(id, enabled, now, ps)
  }

  ghost predicate Possible(c: Command, ps: seq<Profile>) {
    c.Add? ==> Find(ps, c.p.id) == None && !c.p.enabled
  }

  /** A new disabled profile has been added. */
  ghost predicate Joins(p: Profile, before: seq<Profile>, after: seq<Profile>) {
    && !p.enabled && after == before + [p] && (forall q :: q in before ==> q.id != p.id)
    && Possible(Add(p), before) && after == After(Add(p), before)
  }

  function NewProfile(id: ProfileId, name: string, mode: Mode, rules: seq<HostRule>, now: nat): Profile {
    Profile(id, name, None, false, false, [], rules, mode, now)
  }

  /** `accepts` is the validation of names, descriptions and rules. */
  method CreateProfile(store: ProfileStore, accepts: Profile -> bool, id: ProfileId, name: string, mode: Option<Mode>,
      now: nat)
    returns (r: Result<Profile, Error>)
    requires store.Valid() && Find(store.profiles, id) == None
    modifies store
    ensures store.Valid()
    ensures var p := Profile(id, name, None, false, false, [], [], if mode.Some? then mode.value else HostsMode, now);
      r == if accepts(p) then Ok(p) else Err(Rejected)
    ensures r.Ok? ==> Joins(r.value, old(store.profiles), store.profiles)
    ensures r.Err? ==> store.profiles == old(store.profiles)
  {
    var p := NewProfile(id, name, HostsMode, [], now);
    if mode.Some? {
      p := p.(mode := mode.value);
    }
    if !accepts(p) {
      return Err(Rejected);
    }
    store.Save(p);
    return Ok(p);
  }

  /** `parsed` is what the hosts parser makes of the text: rules, or `None` if a line is wrong. */
  method ImportProfile(store: ProfileStore, id: ProfileId, name: string, parsed: Option<seq<HostRule>>, now: nat)
    returns (r: Result<Profile, Error>)
    requires store.Valid() && Find(store.profiles, id) == None
    modifies store
    ensures store.Valid()
    ensures r.Ok? ==> Joins(r.value, old(store.profiles), store.profiles)
                      && parsed.Some?
                      && r.value == Profile(id, r.value.name, None, false, false, [], parsed.value, HostsMode, now)
                      && FreeName(name, NamesOf(old(store.List()))) == Some(r.value.name)
    ensures r.Err? ==> store.profiles == old(store.profiles)
    ensures r.Ok? <==> Trim(name) != [] && parsed.Some? && FreeName(name, NamesOf(old(store.List()))).Some?
    ensures Trim(name) != [] && parsed.Some? && |old(store.List())| < MAX_ITERATIONS ==> r.Ok?
  {
    if Trim(name) == [] {
      return Err(Rejected);
    }
    if parsed == None {
      return Err(Rejected);
    }
    if |store.List()| < MAX_ITERATIONS {
      FewProfilesLeaveAName(name, store.List());
    }
    var final := ResolveNameConflict(name, store.List());
    if final.Err? {
      return Err(final.error);
    }
    var p := NewProfile(id, final.value, HostsMode, parsed.value, now);
    store.Save(p);
    return Ok(p);
  }

  /** A renamed, disabled and unprotected copy of a stored profile. */
  function CopyOf(ps: seq<Profile>, id: ProfileId, sourceId: ProfileId, newName: string, now: nat): Option<Profile> {
    if Trim(newName) == [] then None
    else
      match (Find(ps, sourceId), FreeName(newName, NamesOf(Filter(OfMode(HostsMode), ps))))
      case (Some(i), Some(n)) => Some(ps[i].(id := id, name := n, enabled := false, guarded := false, updatedAt := now))
      case _ => None
  }

  /** The copy keeps mode, rules, description and tags of the original and starts out disabled. */
  method DuplicateProfile(store: ProfileStore, id: ProfileId, sourceId: ProfileId, newName: string, now: nat)
    returns (r: Result<Profile, Error>)
    requires store.Valid() && Find(store.profiles, id) == None
    modifies store
    ensures store.Valid()
    ensures r.Ok? ==> Joins(r.value, old(store.profiles), store.profiles)
    ensures r.Ok? ==> Find(old(store.profiles), sourceId).Some?
                      && var s := old(store.profiles)[Find(old(store.profiles), sourceId).value];
                         r.value == s.(id := id, name := r.value.name, enabled := false,
                             guarded := false, updatedAt := now)
                         && r.value.name !in NamesOf(old(store.List()))
    ensures r.Ok? <==> Trim(newName) != [] && Find(old(store.profiles), sourceId).Some?
                       && FreeName(newName, NamesOf(old(store.List()))).Some?
    ensures r.Ok? ==> FreeName(newName, NamesOf(old(store.List()))) == Some(r.value.name)
    ensures CopyOf(old(store.profiles), id, sourceId, newName, now) == if r.Ok? then Some(r.value) else None
    ensures r.Err? ==> store.profiles == old(store.profiles)
  {
    if Trim(newName) == [] {
      return Err(Rejected);
    }
    var source := store.Load(sourceId);
    if source.Err? {
      return Err(source.error);
    }
    var final := ResolveNameConflict(newName, store.List());
    if final.Err? {
      return Err(final.error);
    }
    var s := source.value;
    var p := NewProfile(id, final.value, s.mode, s.rules, now).(description := s.description, tags := s.tags);
    store.Save(p);
    return Ok(p);
  }

  /** `decoded` is the profile the text describes, if it is one with valid domains. */
  method ImportFromJson(store: ProfileStore, id: ProfileId, name: string, decoded: Option<Profile>, now: nat)
    returns (r: Result<Profile, Error>)
    requires store.Valid() && Find(store.profiles, id) == None
    modifies store
    ensures store.Valid()
    ensures r.Ok? ==> Joins(r.value, old(store.profiles), store.profiles)
                      && decoded.Some?
                      && r.value == decoded.value.(name := r.value.name, id := id, enabled := false,
                          guarded := false, updatedAt := now)
                      && FreeName(name, NamesOf(old(store.List()))) == Some(r.value.name)
    ensures r.Ok? <==> Trim(name) != [] && decoded.Some? && FreeName(name, NamesOf(old(store.List()))).Some?
    ensures r.Err? ==> store.profiles == old(store.profiles)
  {
    if Trim(name) == [] || decoded == None {
      return Err(Rejected);
    }
    var final := ResolveNameConflict(name, store.List());
    if final.Err? {
      return Err(final.error);
    }
    var p := decoded.value.(name := final.value, id := id, enabled := false, guarded := false, updatedAt := now);
    store.Save(p);
    return Ok(p);
  }

  /** Duplicating the DNS profile x under its own name gives a second DNS profile x. */
  lemma {:induction false} CopyTakesDnsName(now: nat)
    ensures var x := NewProfile(1, "x", DnsMode, [], 0);
      var copy := x.(id := 2, updatedAt := now);
      CopyOf([x], 2, 1, "x", now) == Some(copy) && After(Add(copy), [x]) == [x, copy] && copy.name == x.name
  {
    var ps := [NewProfile(1, "x", DnsMode, [], 0)];
    FoundIsUnique(ps, 0);
    assert ps[1..] == [] && Filter(OfMode(HostsMode), ps) == [];
    assert Candidate("x", 1) == "x" && "x" !in NamesOf([]);
    TrimKeepsNonBlank("x");
  }

  method UpdateProfile(store: ProfileStore, accepts: Profile -> bool, c: Command) returns (r: Result<Profile, Error>)
    requires store.Valid() && c.Update?
    modifies store
    ensures store.Valid()
    ensures Find(old(store.profiles), c.id) == None ==> r == Err(NotFound(c.id))
    ensures Find(old(store.profiles), c.id).Some? ==>
              var i := Find(old(store.profiles), c.id).value;
              var p := old(store.profiles)[i];
              var edited := Profile(p.id, c.name, c.description, p.enabled, p.guarded, p.tags, c.rules,
                                    if c.mode.Some? then c.mode.value else p.mode, c.now);
              && r == (if accepts(edited) then Ok(edited) else Err(Rejected))
              && (r.Ok? ==> store.profiles == old(store.profiles)[i := edited])
    ensures r.Ok? ==> store.profiles == After(c, old(store.profiles))
    ensures r.Err? ==> store.profiles == old(store.profiles)
  {
    var target := store.Load(c.id);
    if target.Err? {
      return Err(target.error);
    }
    var p := Edited(target.value, c);
    if !accepts(p) {
      return Err(Rejected);
    }
    store.Save(p);
    return Ok(p);
  }

  /** Hosts profiles exclude each other, DNS profiles do not. */
  method SetProfileEnabled(store: ProfileStore, id: ProfileId, enabled: bool, now: nat)
    returns (r: Result<Profile, Error>)
    requires store.Valid()
    modifies store
    ensures store.Valid() && store.profiles == After(Toggle(id, enabled, now), old(store.profiles))
    ensures Find(old(store.profiles), id) == None ==> r == Err(NotFound(id)) && store.profiles == old(store.profiles)
    ensures Find(old(store.profiles), id).Some? ==>
              var i := Find(old(store.profiles), id).value;
              && Switched(id, enabled, now, old(store.profiles)[i].mode == HostsMode, old(store.profiles),
                          store.profiles)
              && r == Ok(store.profiles[i])
  {
    ghost var ps := store.profiles;
    var target := store.Load(id);
    if target.Err? {
      return Err(target.error);
    }
    SavedTarget(id, enabled, now, ps);
    ToggleSwitches(id, enabled, now, ps);
    var p := target.value;
    if p.mode == HostsMode && enabled {
      store.DisableOthers(id);
    }
    p := p.(enabled := enabled, updatedAt := now);
    store.Save(p);
    return Ok(p);
  }

  // -------------------------------------------------------------------------
  // At most one enabled Hosts profile
  // -------------------------------------------------------------------------

  predicate ActiveHosts(p: Profile) {
    p.mode == HostsMode && p.enabled
  }

  ghost predicate Exclusive(ps: seq<Profile>) {
    forall i, j :: 0 <= i < j < |ps| ==> !(ActiveHosts(ps[i]) && ActiveHosts(ps[j]))
  }

  /** Editing an enabled DNS profile into a Hosts profile while another Hosts profile is enabled. */
  ghost predicate Smuggles(c: Command, ps: seq<Profile>) {
    && c.Update? && c.mode == Some(HostsMode)
    && Find(ps, c.id).Some?
    && var i := Find(ps, c.id).value;
       ps[i].mode == DnsMode && ps[i].enabled && exists j :: 0 <= j < |ps| && ActiveHosts(ps[j])
  }

  lemma {:induction false} AfterKeepsDistinct(c: Command, ps: seq<Profile>)
    requires DistinctProfiles(ps)
    ensures DistinctProfiles(After(c, ps))
  {
    match c
    case Add(p) => SavedKeepsDistinct(ps, p);
    case Delete(id) =>
    case Update(id, _, _, _, _, _) => SameIdsDistinct(ps, After(c, ps));
    case Toggle(id, enabled, now) => SameIdsDistinct(ps, After(c, ps));
  }

  /** Enabling a Hosts profile leaves it the only one enabled, whatever was enabled before, and no
      toggle of a Hosts profile touches a DNS profile. */
  lemma {:induction false} ToggleExcludes(id: ProfileId, enabled: bool, now: nat, ps: seq<Profile>)
    requires DistinctProfiles(ps) && Find(ps, id).Some? && ps[Find(ps, id).value].mode == HostsMode
    ensures forall i :: 0 <= i < |ps| && ps[i].mode == DnsMode ==> AfterToggle(id, enabled, now, ps)[i] == ps[i]
    ensures enabled ==> Exclusive(AfterToggle(id, enabled, now, ps))
    ensures Exclusive(ps) ==> Exclusive(AfterToggle(id, enabled, now, ps))
  {
    var t := Find(ps, id).value;
    forall i | 0 <= i < |ps| && i != t ensures ps[i].id != id {
      FoundIsUnique(ps, i);
    }
  }

  /** One command keeps exclusivity unless it is such an edit, and such an edit always breaks it. */
  lemma {:induction false} StepExclusiveIff(c: Command, ps: seq<Profile>)
    requires DistinctProfiles(ps) && Exclusive(ps) && Possible(c, ps)
    ensures Exclusive(After(c, ps)) <==> !Smuggles(c, ps)
  {
    match c
    case Add(p) =>
    case Delete(id) =>
    case Update(id, _, _, _, _, _) => UpdateExclusiveIff(c, ps);
    case Toggle(id, enabled, now) =>
      if Find(ps, id).Some? && ps[Find(ps, id).value].mode == HostsMode {
        ToggleExcludes(id, enabled, now, ps);
      }
  }

  lemma {:induction false} UpdateExclusiveIff(c: Command, ps: seq<Profile>)
    requires c.Update? && DistinctProfiles(ps) && Exclusive(ps)
    ensures Exclusive(After(c, ps)) <==> !Smuggles(c, ps)
  {
    if Find(ps, c.id).Some? {
      var i := Find(ps, c.id).value;
      var ps' := After(c, ps);
      if Smuggles(c, ps) {
        var j :| 0 <= j < |ps| && ActiveHosts(ps[j]);
        assert ActiveHosts(ps'[i]) && ActiveHosts(ps'[j]);
      } else {
        forall a, b | 0 <= a < b < |ps| ensures !(ActiveHosts(ps'[a]) && ActiveHosts(ps'[b])) {
          assert !(ActiveHosts(ps[a]) && ActiveHosts(ps[b]));
        }
      }
    }
  }

  // -------------------------------------------------------------------------
  // Whole runs
  // -------------------------------------------------------------------------

  ghost predicate StepAt(run: seq<seq<Profile>>, commands: seq<Command>, k: int) {
    0 <= k < |commands| && k + 1 < |run| && Possible(commands[k], run[k]) && run[k + 1] == After(commands[k], run[k])
  }

  ghost predicate Run(run: seq<seq<Profile>>, commands: seq<Command>) {
    && |run| == |commands| + 1 && DistinctProfiles(run[0]) && Exclusive(run[0])
    && forall k :: 0 <= k < |commands| ==> StepAt(run, commands, k)
  }

  ghost predicate ExclusiveAt(run: seq<seq<Profile>>, k: int) {
    0 <= k < |run| && Exclusive(run[k])
  }

  ghost predicate SmugglesAt(run: seq<seq<Profile>>, commands: seq<Command>, k: int) {
    0 <= k < |run| && k < |commands| && Smuggles(commands[k], run[k])
  }

  lemma {:induction false} RunKeepsDistinct(run: seq<seq<Profile>>, commands: seq<Command>, k: nat)
    requires Run(run, commands) && k < |run|
    ensures DistinctProfiles(run[k])
  {
    if k > 0 {
      RunKeepsDistinct(run, commands, k - 1);
      assert StepAt(run, commands, k - 1);
      AfterKeepsDistinct(commands[k - 1], run[k - 1]);
    }
  }

  lemma {:induction false} NextExclusiveIff(run: seq<seq<Profile>>, commands: seq<Command>, k: nat)
    requires Run(run, commands) && k < |commands| && ExclusiveAt(run, k)
    ensures ExclusiveAt(run, k + 1) <==> !SmugglesAt(run, commands, k)
  {
    RunKeepsDistinct(run, commands, k);
    assert StepAt(run, commands, k);
    StepExclusiveIff(commands[k], run[k]);
  }

  /** At every moment up to k at most one Hosts profile is enabled if and only if none of the first
      k commands turns an enabled DNS profile into a second enabled Hosts profile. */
  lemma {:induction false} RunExclusiveIff(run: seq<seq<Profile>>, commands: seq<Command>, k: nat)
    requires Run(run, commands) && k < |run|
    ensures (forall n :: 0 <= n <= k ==> ExclusiveAt(run, n)) <==>
        (forall n :: 0 <= n < k ==> !SmugglesAt(run, commands, n))
  {
    if k > 0 {
      RunExclusiveIff(run, commands, k - 1);
      if ExclusiveAt(run, k - 1) {
        NextExclusiveIff(run, commands, k - 1);
      }
    }
  }

  /** An enabled Hosts profile, a second profile created for DNS and enabled, then edited into a
      Hosts profile: two are enabled. */
  lemma {:induction false} ModeFlipBreaksExclusivity()
    ensures var web := NewProfile(1, "web", HostsMode, [], 0).(enabled := true);
      var dns := NewProfile(2, "dns", DnsMode, [], 0).(enabled := true);
      var c := Update(2, "dns", None, [], Some(HostsMode), 1);
      Exclusive([web, dns]) && !Exclusive(After(c, [web, dns]))
  {
    var web := NewProfile(1, "web", HostsMode, [], 0).(enabled := true);
    var dns := NewProfile(2, "dns", DnsMode, [], 0).(enabled := true);
    var ps, c := [web, dns], Update(2, "dns", None, [], Some(HostsMode), 1);
    FoundIsUnique(ps, 1);
    assert ActiveHosts(ps[0]);
    StepExclusiveIff(c, ps);
  }
}
