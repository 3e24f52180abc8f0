/** Previewing, guarding and applying a toggle of a Hosts profile. */
module Apply {
  import opened Base
  import opened Profiles
  import opened Merge
  import opened Plan

  // -------------------------------------------------------------------------
  // The hosts file
  // -------------------------------------------------------------------------

  datatype FileState = Missing | Broken | Content(text: string)

  /** Whether the system takes a write, and what a failed one leaves behind. */
  datatype WriteOutcome = Wrote | Broke(left: FileState)

  /** A missing file reads as empty. */
  function ReadOf(file: FileState): Result<string, Error> {
    match file
    case Missing => Ok("")
    case Broken => Err(Unreadable)
    case Content(text) => Ok(text)
  }

  class HostsWriter {
    var file: FileState

    constructor (file: FileState)
      ensures this.file == file
    {
      this.file := file;
    }

    /** Returns whether a backup was taken. */
    method ApplyWithContent(env: PlanEnv, plan: ApplyPlan, current: string, outcome: WriteOutcome)
        returns (r: Result<bool, Error>)
      modifies this
      ensures outcome.Wrote? ==> r == Ok(plan.backupRequired) && file == Content(env.build(current, plan.rules))
      ensures outcome.Broke? ==> r == Err(WriteFailed) && file == outcome.left
    {
      match outcome {
        case Wrote =>
          file := Content(env.build(current, plan.rules));
          return Ok(plan.backupRequired);
        case Broke(left) =>
          file := left;
          return Err(WriteFailed);
      }
    }
  }

  // -------------------------------------------------------------------------
  // Toggling
  // -------------------------------------------------------------------------

  /** The preview's in-memory flags. */
  function Flagged(id: ProfileId, enabled: bool, p: Profile): Profile {
    if p.id == id then p.(enabled := enabled)
    else if enabled then p.(enabled := false)
    else p
  }

  function AllFlagged(id: ProfileId, enabled: bool, ps: seq<Profile>): (r: seq<Profile>)
    ensures |r| == |ps|
  {
    seq(|ps|, i requires 0 <= i < |ps| => Flagged(id, enabled, ps[i]))
  }

  /** The stored profile after the toggle. */
  function ToggledOne(id: ProfileId, enabled: bool, now: nat, p: Profile): Profile {
    if p.id == id then p.(enabled := enabled, updatedAt := now)
    else if enabled then DisabledUnless(id, p)
    else p
  }

  function Toggled(id: ProfileId, enabled: bool, now: nat, ps: seq<Profile>): (r: seq<Profile>)
    ensures |r| == |ps|
  {
    seq(|ps|, i requires 0 <= i < |ps| => ToggledOne(id, enabled, now, ps[i]))
  }

  /** The ids that a toggle reports as disabled. */
  function DisabledIds(id: ProfileId, enabled: bool, ps: seq<Profile>): Result<seq<ProfileId>, Error> {
    if !enabled then Ok([])
    else match Find(ps, id)
         case None => Err(NotFound(id))
         case Some(i) =>
           if ps[i].mode != HostsMode then Ok([])
           else Ok(IdsOf(Filter((p: Profile) => p.enabled && p.id != id, Filter(OfMode(HostsMode), ps))))
  }

  function IdsOf(ps: seq<Profile>): (r: seq<ProfileId>)
    ensures |r| == |ps| && forall x :: x in r <==> exists p :: p in ps && p.id == x
  {
    var r := seq(|ps|, i requires 0 <= i < |ps| => ps[i].id);
    assert forall i :: 0 <= i < |ps| ==> r[i] in r && ps[i] in ps;
    r
  }

  // -------------------------------------------------------------------------
  // Preview
  // -------------------------------------------------------------------------

  /** What previewing a toggle returns: nothing is changed, a DNS profile never touches hosts. */
  ghost predicate Previews(env: PlanEnv, ps: seq<Profile>, file: FileState, id: ProfileId, enabled: bool,
                           r: Result<ApplyPlan, Error>) {
    match Find(ps, id)
    case None => r == Err(NotFound(id))
    case Some(i) =>
      if ps[i].mode == DnsMode then r == Ok(EMPTY_PLAN)
      else match ReadOf(file)
           case Err(e) => r == Err(e)
           case Ok(text) => r.Ok? && IsPlan(env, AllFlagged(id, enabled, Filter(OfMode(HostsMode), ps)), text, r.value)
  }

  method GeneratePreviewPlan(env: PlanEnv, id: ProfileId, enabled: bool, store: ProfileStore, writer: HostsWriter)
    returns (r: Result<ApplyPlan, Error>)
    ensures Previews(env, store.profiles, writer.file, id, enabled, r)
  {
    var target := store.Load(id);
    if target.Err? {
      return Err(target.error);
    }
    if target.value.mode == DnsMode {
      return Ok(EMPTY_PLAN);
    }
    var stored := store.ListByMode(HostsMode);
    var profiles, found := SetFlags(id, enabled, stored);
    assert target.value in stored;
    if !found {
      return Err(Rejected);
    }
    var hosts := ReadOf(writer.file);
    if hosts.Err? {
      return Err(hosts.error);
    }
    var plan := GeneratePlan(env, profiles, hosts.value);
    r := Ok(plan);
  }

  method SetFlags(id: ProfileId, enabled: bool, stored: seq<Profile>) returns (profiles: seq<Profile>, found: bool)
    ensures profiles == AllFlagged(id, enabled, stored)
    ensures found <==> exists p :: p in stored && p.id == id
  {
    profiles, found := stored, false;
    for i := 0 to |profiles|
      invariant |profiles| == |stored|
      invariant forall k :: 0 <= k < |stored| ==>
          profiles[k] == if k < i then Flagged(id, enabled, stored[k]) else stored[k]
      invariant found <==> exists p :: p in stored[..i] && p.id == id
    {
      assert stored[..i + 1] == stored[..i] + [stored[i]];
      if profiles[i].id == id {
        profiles := profiles[i := profiles[i].(enabled := enabled)];
        found := true;
      } else if enabled {
        profiles := profiles[i := profiles[i].(enabled := false)];
      }
    }
    assert stored[..|stored|] == stored;
  }

  datatype ApplyOutcome = ApplyOutcome(plan: ApplyPlan, disabledIds: seq<ProfileId>, backup: bool)
  {
    predicate HasConflicts() { plan.conflicts != [] }

    function Changes(): nat { |plan.diff.added| + |plan.diff.removed| }
  }

  datatype ApplyMode = QuickApply | RequirePreview

  const DESTRUCTIVE_THRESHOLD: nat := 100

  function DecideApplyMode(outcome: ApplyOutcome): ApplyMode {
    if outcome.HasConflicts() then RequirePreview
    else if outcome.disabledIds != [] then RequirePreview
    else if outcome.Changes() > DESTRUCTIVE_THRESHOLD then RequirePreview
    else QuickApply
  }

  /** Safe to write without showing a preview first: no conflict, nobody else disabled, at most a
      hundred lines added or removed. */
  ghost predicate Harmless(outcome: ApplyOutcome) {
    && outcome.plan.conflicts == [] && outcome.disabledIds == []
    && |outcome.plan.diff.added| + |outcome.plan.diff.removed| <= 100
  }

  lemma {:induction false} QuickIffHarmless(outcome: ApplyOutcome)
    ensures DecideApplyMode(outcome) == QuickApply <==> Harmless(outcome)
  {
  }

  method PreviewOutcome(env: PlanEnv, id: ProfileId, enabled: bool, store: ProfileStore, writer: HostsWriter)
    returns (r: Result<ApplyOutcome, Error>)
    ensures r.Ok? ==> Previews(env, store.profiles, writer.file, id, enabled, Ok(r.value.plan))
                      && DisabledIds(id, enabled, store.profiles) == Ok(r.value.disabledIds)
    ensures r.Err? ==> Previews(env, store.profiles, writer.file, id, enabled, Err(r.error))
  {
    var plan := GeneratePreviewPlan(env, id, enabled, store, writer);
    if plan.Err? {
      return Err(plan.error);
    }
    var ids := DisabledIds(id, enabled, store.profiles);
    r := Ok(ApplyOutcome(plan.value, ids.value, false));
  }

  /** The guard: what it foresees it lets pass if that is harmless, and refuses if it is not. */
  method EnforceQuickApplyPolicy(env: PlanEnv, id: ProfileId, enabled: bool, store: ProfileStore, writer: HostsWriter,
                                 requireSafe: bool)
    returns (r: Result<(), Error>)
    ensures !requireSafe ==> r == Ok(())
    ensures requireSafe ==> forall outcome: ApplyOutcome ::
              Foreseen(env, store.profiles, writer.file, id, enabled, outcome) ==>
                r == if Harmless(outcome) then Ok(()) else Err(PreviewRequired)
    ensures requireSafe && (r.Ok? || r.error == PreviewRequired) ==>
              exists outcome: ApplyOutcome :: Foreseen(env, store.profiles, writer.file, id, enabled, outcome)
    ensures requireSafe && r.Err? && r.error != PreviewRequired ==>
              Previews(env, store.profiles, writer.file, id, enabled, Err(r.error))
  {
    if !requireSafe {
      return Ok(());
    }
    var preview := PreviewOutcome(env, id, enabled, store, writer);
    if preview.Err? {
      NothingForeseen(env, store.profiles, writer.file, id, enabled, preview.error);
      return Err(preview.error);
    }
    ForeseenAlike(env, store.profiles, writer.file, id, enabled, preview.value);
    QuickIffHarmless(preview.value);
    if DecideApplyMode(preview.value) == RequirePreview {
      return Err(PreviewRequired);
    }
    return Ok(());
  }

  ghost predicate Foreseen(env: PlanEnv, ps: seq<Profile>, file: FileState, id: ProfileId, enabled: bool,
      outcome: ApplyOutcome) {
    Previews(env, ps, file, id, enabled, Ok(outcome.plan)) && DisabledIds(id, enabled, ps) == Ok(outcome.disabledIds)
  }

  /** Two outcomes foreseen for the same toggle are both harmless or both not. */
  lemma {:induction false} ForeseenAlike(env: PlanEnv, ps: seq<Profile>, file: FileState, id: ProfileId, enabled: bool,
      a: ApplyOutcome)
    requires Foreseen(env, ps, file, id, enabled, a)
    ensures forall b :: Foreseen(env, ps, file, id, enabled, b) ==> (Harmless(a) <==> Harmless(b))
  {
    forall b | Foreseen(env, ps, file, id, enabled, b) ensures a.plan == b.plan && a.disabledIds == b.disabledIds {
      var i := Find(ps, id).value;
      if ps[i].mode != DnsMode {
        PlanIsUnique(env, AllFlagged(id, enabled, Filter(OfMode(HostsMode), ps)), ReadOf(file).value, a.plan, b.plan);
      }
    }
  }

  lemma {:induction false} NothingForeseen(env: PlanEnv, ps: seq<Profile>, file: FileState, id: ProfileId,
      enabled: bool, e: Error)
    requires Previews(env, ps, file, id, enabled, Err(e))
    ensures e != PreviewRequired && forall o :: !Foreseen(env, ps, file, id, enabled, o)
  {
  }

  // -------------------------------------------------------------------------
  // Enabling and applying
  // -------------------------------------------------------------------------

  /** Regenerates the plan from storage and writes it. */
  method ApplyCurrentPlan(env: PlanEnv, store: ProfileStore, writer: HostsWriter, outcome: WriteOutcome)
    returns (r: Result<(ApplyPlan, bool), Error>)
    modifies writer
    ensures match ReadOf(old(writer.file))
            case Err(e) => r == Err(e) && writer.file == old(writer.file)
            case Ok(text) =>
              exists plan :: IsPlan(env, store.ListByMode(HostsMode), text, plan)
                && match outcome
                   case Wrote => r == Ok((plan, plan.backupRequired))
                       && writer.file == Content(env.build(text, plan.rules))
                   case Broke(left) => r == Err(WriteFailed) && writer.file == left
  {
    var profiles := store.ListByMode(HostsMode);
    var hosts := ReadOf(writer.file);
    if hosts.Err? {
      return Err(hosts.error);
    }
    var plan := GeneratePlan(env, profiles, hosts.value);
    var backup := writer.ApplyWithContent(env, plan, hosts.value, outcome);
    r := if backup.Ok? then Ok((plan, backup.value)) else Err(backup.error);
  }

  /** Toggles the stored flags, then writes the plan they give. A missing profile changes nothing;
      a failing write leaves the flags toggled. */
  method EnableAndApplyLogic(env: PlanEnv, id: ProfileId, enabled: bool, store: ProfileStore, writer: HostsWriter,
                             now: nat, outcome: WriteOutcome)
    returns (r: Result<ApplyOutcome, Error>)
    requires store.Valid()
    modifies store, writer
    ensures store.Valid()
    ensures Find(old(store.profiles), id) == None ==>
              r == Err(NotFound(id)) && store.profiles == old(store.profiles) && writer.file == old(writer.file)
    ensures Find(old(store.profiles), id).Some? ==> store.profiles == Toggled(id, enabled, now, old(store.profiles))
    ensures Find(old(store.profiles), id).Some? ==> (r.Ok? <==> ReadOf(old(writer.file)).Ok? && outcome == Wrote)
    ensures r.Err? ==> r.error == NotFound(id) || r.error == Unreadable || r.error == WriteFailed
    ensures r.Ok? ==> ReadOf(old(writer.file)).Ok?
                      && IsPlan(env, Filter(OfMode(HostsMode), store.profiles),
                          ReadOf(old(writer.file)).value, r.value.plan)
                      && DisabledIds(id, enabled, old(store.profiles)) == Ok(r.value.disabledIds)
                      && writer.file == Content(env.build(ReadOf(old(writer.file)).value, r.value.plan.rules))
                      && r.value.backup == r.value.plan.backupRequired
  {
    ghost var before := store.profiles;
    var disabled := DisabledIds(id, enabled, store.profiles);
    if disabled.Err? {
      return Err(disabled.error);
    }
    if enabled {
      store.DisableOthers(id);
    }
    SavedTarget(id, enabled, now, before);
    var target := store.Load(id);
    if target.Err? {
      return Err(target.error);
    }
    store.Save(target.value.(enabled := enabled, updatedAt := now));
    var applied := ApplyCurrentPlan(env, store, writer, outcome);
    r := if applied.Ok? then Ok(ApplyOutcome(applied.value.0, disabled.value, applied.value.1)) else Err(applied.error);
  }

  /** Disabling the others and saving the target is the pointwise toggle. */
  lemma {:induction false} SavedTarget(id: ProfileId, enabled: bool, now: nat, ps: seq<Profile>)
    requires DistinctProfiles(ps)
    ensures var mid := if enabled then WithOthersDisabled(ps, id) else ps;
      && Find(mid, id) == Find(ps, id)
      && (Find(ps, id).Some? ==>
            Toggled(id, enabled, now, ps) == Saved(mid, mid[Find(ps, id).value].(enabled := enabled, updatedAt := now)))
  {
    var mid := if enabled then WithOthersDisabled(ps, id) else ps;
    SameIdsSamePlace(mid, ps, id);
    if Find(ps, id).Some? {
      var i := Find(ps, id).value;
      var saved := mid[i := mid[i].(enabled := enabled, updatedAt := now)];
      forall k | 0 <= k < |ps| ensures Toggled(id, enabled, now, ps)[k] == saved[k] {
        assert k != i ==> ps[k].id != id;
      }
    }
  }

  lemma {:induction false} SameIdsSamePlace(ps: seq<Profile>, qs: seq<Profile>, id: ProfileId)
    requires |ps| == |qs| && forall i :: 0 <= i < |ps| ==> ps[i].id == qs[i].id
    ensures Find(ps, id) == Find(qs, id)
  {
    if ps != [] {
      SameIdsSamePlace(ps[1..], qs[1..], id);
    }
  }

  // -------------------------------------------------------------------------
  // The preview foretells the write
  // -------------------------------------------------------------------------

  lemma {:induction false} ToggledConcat(id: ProfileId, enabled: bool, now: nat, a: seq<Profile>, b: seq<Profile>)
    ensures Toggled(id, enabled, now, a + b) == Toggled(id, enabled, now, a) + Toggled(id, enabled, now, b)
  {
  }

  lemma {:induction false} OneListed(keep: Profile -> bool, p: Profile)
    ensures Filter(keep, [p]) == if keep(p) then [p] else []
  {
    assert [p][1..] == [];
  }

  lemma {:induction false} ToggleCommutesWithListing(id: ProfileId, enabled: bool, now: nat, ps: seq<Profile>)
    ensures Filter(OfMode(HostsMode), Toggled(id, enabled, now, ps))
        == Toggled(id, enabled, now, Filter(OfMode(HostsMode), ps))
  {
    if ps != [] {
      var keep, rest, p, t := OfMode(HostsMode), ps[1..], ps[0], ToggledOne(id, enabled, now, ps[0]);
      ToggleCommutesWithListing(id, enabled, now, rest);
      assert ps == [p] + rest;
      ToggledConcat(id, enabled, now, [p], rest);
      assert Toggled(id, enabled, now, [p]) == [t];
      FilterConcat(keep, [t], Toggled(id, enabled, now, rest));
      FilterConcat(keep, [p], rest);
      OneListed(keep, p);
      OneListed(keep, t);
      ToggledConcat(id, enabled, now, Filter(keep, [p]), Filter(keep, rest));
    }
  }

  /** In-memory flags and stored flags differ only in what a plan does not look at. */
  lemma {:induction false} PreviewSeesTheSameProfiles(id: ProfileId, enabled: bool, now: nat, ps: seq<Profile>)
    ensures AllSameForPlan(AllFlagged(id, enabled, Filter(OfMode(HostsMode), ps)),
                           Filter(OfMode(HostsMode), Toggled(id, enabled, now, ps)))
  {
    ToggleCommutesWithListing(id, enabled, now, ps);
    var hosts := Filter(OfMode(HostsMode), ps);
    forall i | 0 <= i < |hosts|
      ensures SameForPlan(Flagged(id, enabled, hosts[i]), ToggledOne(id, enabled, now, hosts[i]))
    {
      assert hosts[i] in hosts;
    }
    FlagsAgree(id, enabled, now, hosts);
  }

  lemma {:induction false} FlagsAgree(id: ProfileId, enabled: bool, now: nat, hosts: seq<Profile>)
    requires forall i :: 0 <= i < |hosts| ==>
        SameForPlan(Flagged(id, enabled, hosts[i]), ToggledOne(id, enabled, now, hosts[i]))
    ensures AllSameForPlan(AllFlagged(id, enabled, hosts), Toggled(id, enabled, now, hosts))
  {
  }

  /** For a Hosts profile the plans a read-only preview may return are exactly the plans the toggle
      may write, whichever profiles it disables on the way; and there is only one. */
  lemma {:induction false} PreviewPredictsApply(env: PlanEnv, ps: seq<Profile>, file: FileState, id: ProfileId,
      enabled: bool,
                                                now: nat, plan: ApplyPlan)
    requires Find(ps, id).Some? && ps[Find(ps, id).value].mode == HostsMode && ReadOf(file).Ok?
    ensures Previews(env, ps, file, id, enabled, Ok(plan))
       <==> IsPlan(env, Filter(OfMode(HostsMode), Toggled(id, enabled, now, ps)), ReadOf(file).value, plan)
  {
    PreviewSeesTheSameProfiles(id, enabled, now, ps);
    PlanIsDetermined(env, AllFlagged(id, enabled, Filter(OfMode(HostsMode), ps)),
                     Filter(OfMode(HostsMode), Toggled(id, enabled, now, ps)), ReadOf(file).value, plan);
  }

  /** The flag of another profile goes from true to false. */
  ghost predicate Flips(id: ProfileId, enabled: bool, p: Profile) {
    p.id != id && p.enabled && !ToggledOne(id, enabled, 0, p).enabled
  }

  ghost predicate ReportsFlips(id: ProfileId, enabled: bool, ps: seq<Profile>, ids: seq<ProfileId>) {
    forall p :: p in ps ==> (Flips(id, enabled, p) <==> p.id in ids && p.id != id)
  }

  /** The reported ids are exactly the other profiles that the toggle disables if and only if the
      target is a Hosts profile, or is being disabled, or no Hosts profile is enabled: for a DNS
      target nothing is reported although every enabled Hosts profile is switched off. */
  lemma {:induction false} DisabledIdsExactIff(id: ProfileId, enabled: bool, ps: seq<Profile>)
    requires DistinctProfiles(ps) && Find(ps, id).Some?
    ensures DisabledIds(id, enabled, ps).Ok?
    ensures ReportsFlips(id, enabled, ps, DisabledIds(id, enabled, ps).value) <==>
              (ps[Find(ps, id).value].mode == HostsMode || !enabled
               || forall p :: p in ps && p.mode == HostsMode ==> !p.enabled)
  {
    if enabled {
      var target := ps[Find(ps, id).value];
      FlipsAreHosts(id, ps);
      if target.mode == HostsMode {
        ReportedAreHosts(id, ps);
      }
    }
  }

  /** Enabling a profile disables the other enabled Hosts profiles, whatever its own mode. */
  lemma {:induction false} FlipsAreHosts(id: ProfileId, ps: seq<Profile>)
    ensures forall p :: p in ps ==> (Flips(id, true, p) <==> p.mode == HostsMode && p.enabled && p.id != id)
  {
  }

  lemma {:induction false} ReportedAreHosts(id: ProfileId, ps: seq<Profile>)
    requires DistinctProfiles(ps) && Find(ps, id).Some? && ps[Find(ps, id).value].mode == HostsMode
    ensures forall p :: p in ps ==>
              (p.id in DisabledIds(id, true, ps).value <==> p.mode == HostsMode && p.enabled && p.id != id)
  {
    var ids := DisabledIds(id, true, ps).value;
    forall p | p in ps ensures p.id in ids <==> p.mode == HostsMode && p.enabled && p.id != id {
      if q :| q in ps && q.mode == HostsMode && q.enabled && q.id != id && q.id == p.id {
        SameIdSame(ps, p, q);
      }
    }
  }

  lemma {:induction false} SameIdSame(ps: seq<Profile>, p: Profile, q: Profile)
    requires DistinctProfiles(ps) && p in ps && q in ps && p.id == q.id
    ensures p == q
  {
    var i :| 0 <= i < |ps| && ps[i] == p;
    var j :| 0 <= j < |ps| && ps[j] == q;
  }

  const WEB := Profile(1, "web", None, true, false, [], [], HostsMode, 0)
  const DNS := Profile(2, "dns", None, false, false, [], [], DnsMode, 0)

  /** A DNS target with an enabled Hosts profile beside it: the report misses what is disabled. */
  lemma {:induction false} DnsTargetDisablesSilently()
    ensures var ps := [WEB, DNS];
      DisabledIds(DNS.id, true, ps) == Ok([]) && ps[0].enabled && !Toggled(DNS.id, true, 0, ps)[0].enabled
  {
    var ps := [WEB, DNS];
    assert ps[1..] == [ps[1]];
    assert Find(ps[1..], DNS.id) == Some(0);
  }

  // -------------------------------------------------------------------------
  // The command: guard and write under one lock
  // -------------------------------------------------------------------------

  /** What a toggle command does to the stored flags: Hosts profiles exclude each other, a DNS
      profile concerns nobody else. */
  function AfterToggle(id: ProfileId, enabled: bool, now: nat, ps: seq<Profile>): seq<Profile> {
    match Find(ps, id)
    case None => ps
    case Some(i) =>
      if ps[i].mode == HostsMode then Toggled(id, enabled, now, ps)
      else ps[i := ps[i].(enabled := enabled, updatedAt := now)]
  }

  /** Profile by profile: the target gets the flag and the time, the other Hosts profiles are
      disabled if a Hosts profile is enabled, and nothing else changes. */
  ghost predicate Switched(id: ProfileId, enabled: bool, now: nat, hosts: bool, before: seq<Profile>,
      after: seq<Profile>) {
    |after| == |before| && forall i :: 0 <= i < |before| ==>
      after[i] == if before[i].id == id then before[i].(enabled := enabled, updatedAt := now)
                  else if hosts && enabled && before[i].mode == HostsMode then before[i].(enabled := false)
                  else before[i]
  }

  lemma {:induction false} ToggleSwitches(id: ProfileId, enabled: bool, now: nat, ps: seq<Profile>)
    requires DistinctProfiles(ps) && Find(ps, id).Some?
    ensures Switched(id, enabled, now, true, ps, Toggled(id, enabled, now, ps))
    ensures Switched(id, enabled, now, ps[Find(ps, id).value].mode == HostsMode, ps, AfterToggle(id, enabled, now, ps))
  {
    var t := Find(ps, id).value;
    forall i | 0 <= i < |ps| && i != t ensures ps[i].id != id {
      assert ps[i].id != ps[t].id;
    }
  }

  /** What a finished Hosts toggle wrote; a missing file counts as empty. */
  ghost predicate WrittenAs(env: PlanEnv, before: FileState, after: FileState, ps: seq<Profile>,
      outcome: ApplyOutcome) {
    var text := if before.Content? then before.text else "";
    && before != Broken && IsPlan(env, Filter(OfMode(HostsMode), ps), text, outcome.plan)
    && after == Content(env.build(text, outcome.plan.rules))
  }

  /** The ids of the other Hosts profiles that are enabled, if the target is being enabled. */
  ghost predicate ReportsDisabled(id: ProfileId, enabled: bool, before: seq<Profile>, ids: seq<ProfileId>) {
    forall p :: p in before ==> (p.id in ids <==> enabled && p.mode == HostsMode && p.enabled && p.id != id)
  }

  /** The guard foresees a harmless outcome. */
  ghost predicate Passes(env: PlanEnv, ps: seq<Profile>, file: FileState, id: ProfileId, enabled: bool) {
    exists outcome: ApplyOutcome :: Foreseen(env, ps, file, id, enabled, outcome) && Harmless(outcome)
  }

  /** What is written after the guard has foreseen a harmless outcome is that outcome. */
  lemma {:induction false} WriteIsHarmless(env: PlanEnv, ps: seq<Profile>, file: FileState, id: ProfileId,
      enabled: bool, now: nat, written: ApplyOutcome)
    requires DistinctProfiles(ps) && Find(ps, id).Some? && ps[Find(ps, id).value].mode == HostsMode && ReadOf(file).Ok?
    requires Passes(env, ps, file, id, enabled)
    requires IsPlan(env, Filter(OfMode(HostsMode), Toggled(id, enabled, now, ps)), ReadOf(file).value, written.plan)
    requires DisabledIds(id, enabled, ps) == Ok(written.disabledIds)
    ensures Harmless(written) && OthersUntouched(id, ps, Toggled(id, enabled, now, ps))
  {
    var foreseen :| Foreseen(env, ps, file, id, enabled, foreseen) && Harmless(foreseen);
    GuardBoundsWrite(env, ps, file, id, enabled, now, foreseen);
    PlanIsUnique(env, Filter(OfMode(HostsMode), Toggled(id, enabled, now, ps)), ReadOf(file).value,
                 foreseen.plan, written.plan);
  }

  /** The Hosts branch, under the lock. */
  method EnableAndApplyHosts(env: PlanEnv, id: ProfileId, enabled: bool, requireSafe: bool, store: ProfileStore,
                             writer: HostsWriter, now: nat, outcome: WriteOutcome)
    returns (r: Result<ApplyOutcome, Error>)
    requires store.Valid() && Find(store.profiles, id).Some?
    requires store.profiles[Find(store.profiles, id).value].mode == HostsMode
    modifies store, writer
    ensures store.Valid()
    ensures store.profiles == old(store.profiles) || store.profiles == Toggled(id, enabled, now, old(store.profiles))
    ensures r.Ok? ==> store.profiles == Toggled(id, enabled, now, old(store.profiles))
                      && WrittenAs(env, old(writer.file), writer.file, store.profiles, r.value)
    ensures r.Ok? && requireSafe ==> Harmless(r.value) && OthersUntouched(id, old(store.profiles), store.profiles)
    ensures r.Ok? ==> ReportsDisabled(id, enabled, old(store.profiles), r.value.disabledIds)
                      && r.value.backup == r.value.plan.backupRequired
    ensures var passes := requireSafe ==> Passes(env, old(store.profiles), old(writer.file), id, enabled);
      && (r.Ok? <==> passes && old(writer.file) != Broken && outcome == Wrote)
      && (r == Err(PreviewRequired) <==> !passes && old(writer.file) != Broken)
    ensures r == Err(PreviewRequired) ==> store.profiles == old(store.profiles) && writer.file == old(writer.file)
  {
    ghost var ps, file := store.profiles, writer.file;
    var allowed := EnforceQuickApplyPolicy(env, id, enabled, store, writer, requireSafe);
    if allowed.Err? {
      return Err(allowed.error);
    }
    r := EnableAndApplyLogic(env, id, enabled, store, writer, now, outcome);
    if enabled {
      ReportedAreHosts(id, ps);
    }
    if r.Ok? && requireSafe {
      WriteIsHarmless(env, ps, file, id, enabled, now, r.value);
    }
  }

  /** With `requireSafe` nothing is written unless the write is harmless; what is refused leaves
      storage and file as they were. */
  method EnableAndApply(env: PlanEnv, id: ProfileId, enabled: bool, requireSafe: bool, store: ProfileStore,
                        writer: HostsWriter, now: nat, outcome: WriteOutcome)
    returns (r: Result<ApplyOutcome, Error>)
    requires store.Valid()
    modifies store, writer
    ensures store.Valid()
    ensures r.Ok? ==> Find(old(store.profiles), id).Some?
    ensures Find(old(store.profiles), id) == None ==>
              r == Err(NotFound(id)) && store.profiles == old(store.profiles) && writer.file == old(writer.file)
    ensures Find(old(store.profiles), id).Some? ==>
              var hosts := old(store.profiles)[Find(old(store.profiles), id).value].mode == HostsMode;
              var passes := requireSafe ==> Passes(env, old(store.profiles), old(writer.file), id, enabled);
              && (r.Ok? <==> !hosts || (passes && old(writer.file) != Broken && outcome == Wrote))
              && (r == Err(PreviewRequired) <==> hosts && !passes && old(writer.file) != Broken)
              && (store.profiles == old(store.profiles)
                  || Switched(id, enabled, now, hosts, old(store.profiles), store.profiles))
              && (r.Ok? ==> Switched(id, enabled, now, hosts, old(store.profiles), store.profiles))
              && (r.Ok? && hosts ==> ReportsDisabled(id, enabled, old(store.profiles), r.value.disabledIds)
                                     && r.value.backup == r.value.plan.backupRequired)
              && (r.Ok? ==> if hosts then WrittenAs(env, old(writer.file), writer.file, store.profiles, r.value)
                            else writer.file == old(writer.file) && r.value == ApplyOutcome(EMPTY_PLAN, [], false))
    ensures r.Ok? && requireSafe ==> Harmless(r.value) && OthersUntouched(id, old(store.profiles), store.profiles)
    ensures r == Err(PreviewRequired) ==> store.profiles == old(store.profiles) && writer.file == old(writer.file)
  {
    ghost var ps := store.profiles;
    var target := store.Load(id);
    if target.Err? {
      return Err(target.error);
    }
    ToggleSwitches(id, enabled, now, ps);
    if target.value.mode != HostsMode {
      store.Save(target.value.(enabled := enabled, updatedAt := now));
      return Ok(ApplyOutcome(EMPTY_PLAN, [], false));
    }
    r := EnableAndApplyHosts(env, id, enabled, requireSafe, store, writer, now, outcome);
  }

  ghost predicate OthersUntouched(id: ProfileId, before: seq<Profile>, after: seq<Profile>) {
    |after| == |before| && forall i :: 0 <= i < |before| && before[i].id != id ==> after[i] == before[i]
  }

  /** What the guard lets pass is a plan the toggle writes, and it is harmless. */
  lemma {:induction false} GuardBoundsWrite(env: PlanEnv, ps: seq<Profile>, file: FileState, id: ProfileId,
      enabled: bool, now: nat, foreseen: ApplyOutcome)
    requires DistinctProfiles(ps) && Find(ps, id).Some? && ps[Find(ps, id).value].mode == HostsMode && ReadOf(file).Ok?
    ensures Foreseen(env, ps, file, id, enabled, foreseen) && Harmless(foreseen) ==>
              IsPlan(env, Filter(OfMode(HostsMode), Toggled(id, enabled, now, ps)), ReadOf(file).value, foreseen.plan)
              && Harmless(foreseen) && OthersUntouched(id, ps, Toggled(id, enabled, now, ps))
  {
    if Foreseen(env, ps, file, id, enabled, foreseen) && Harmless(foreseen) {
      PreviewPredictsApply(env, ps, file, id, enabled, now, foreseen.plan);
      DisabledIdsExactIff(id, enabled, ps);
      forall i | 0 <= i < |ps| && ps[i].id != id ensures Toggled(id, enabled, now, ps)[i] == ps[i] {
        assert ps[i] in ps;
        assert Flips(id, enabled, ps[i]) ==> ps[i].id in foreseen.disabledIds;
      }
    }
  }
}
