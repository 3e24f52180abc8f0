/** Profiles and the store that holds them. */
module Profiles {
  import opened Base

  /** An address; IPv4 sorts before IPv6. */
  datatype IpAddr = V4(bits: nat) | V6(bits: nat)

  predicate IpLe(a: IpAddr, b: IpAddr) {
    if a.V4? == b.V4? then a.bits <= b.bits else a.V4?
  }

  /** A comment line is a rule without an address. */
  datatype HostRule = HostRule(ip: Option<IpAddr>, domains: seq<string>, enabled: bool, comment: Option<string>)

  datatype Mode = HostsMode | DnsMode

  type ProfileId = nat

  datatype Profile = Profile(
    id: ProfileId,
    name: string,
    description: Option<string>,
    enabled: bool,
    guarded: bool,
    tags: seq<string>,
    rules: seq<HostRule>,
    mode: Mode,
    updatedAt: nat)

  datatype Error = NotFound(id: ProfileId) | Rejected | PreviewRequired | Unreadable | WriteFailed

  ghost predicate DistinctProfiles(profiles: seq<Profile>) {
    forall i, j :: 0 <= i < j < |profiles| ==> profiles[i].id != profiles[j].id
  }

  /** The position of a profile. */
  function Find(profiles: seq<Profile>, id: ProfileId): (r: Option<nat>)
    ensures r.Some? ==> r.value < |profiles| && profiles[r.value].id == id
    ensures r.None? <==> forall p :: p in profiles ==> p.id != id
  {
    if profiles == [] then None
    else if profiles[0].id == id then Some(0)
    else match Find(profiles[1..], id)
         case Some(i) => Some(i + 1)
         case None => None
  }

  function OfMode(mode: Mode): Profile -> bool {
    (p: Profile) => p.mode == mode
  }

  /** One profile saved: replaced where it is, or added. */
  function Saved(profiles: seq<Profile>, p: Profile): seq<Profile> {
    match Find(profiles, p.id)
    case Some(i) => profiles[i := p]
    case None => profiles + [p]
  }

  lemma {:induction false} SavedKeepsDistinct(profiles: seq<Profile>, p: Profile)
    requires DistinctProfiles(profiles)
    ensures DistinctProfiles(Saved(profiles, p))
  {
    if Find(profiles, p.id) == None {
      assert forall i :: 0 <= i < |profiles| ==> profiles[i] in profiles;
    }
  }

  lemma {:induction false} FoundIsUnique(profiles: seq<Profile>, i: nat)
    requires DistinctProfiles(profiles) && i < |profiles|
    ensures Find(profiles, profiles[i].id) == Some(i)
  {
    assert profiles[i] in profiles;
  }

  /** One profile taken out. */
  function Without(profiles: seq<Profile>, id: ProfileId): seq<Profile> {
    match Find(profiles, id)
    case Some(i) => profiles[..i] + profiles[i + 1..]
    case None => profiles
  }

  lemma {:induction false} CutBehind<T>(x: T, s: seq<T>, i: nat)
    requires i < |s|
    ensures ([x] + s)[..i + 1] + ([x] + s)[i + 2..] == [x] + (s[..i] + s[i + 1..])
    ensures ([x] + s)[..0] + ([x] + s)[1..] == s
  {
  }

  lemma {:induction false} FoundBehind(x: Profile, s: seq<Profile>, id: ProfileId)
    ensures Find([x] + s, id)
         == if x.id == id then Some(0)
            else match Find(s, id) case Some(i) => Some(i + 1) case None => None
  {
    assert ([x] + s)[1..] == s;
  }

  lemma {:induction false} WithoutFirst(x: Profile, s: seq<Profile>, id: ProfileId)
    ensures Without([x] + s, id) == if x.id == id then s else [x] + Without(s, id)
  {
    FoundBehind(x, s, id);
    if x.id == id {
      assert ([x] + s)[1..] == s;
    } else if Find(s, id).Some? {
      CutBehind(x, s, Find(s, id).value);
    }
  }

  lemma {:induction false} KeepsAll(keep: Profile -> bool, ps: seq<Profile>)
    requires forall p :: p in ps ==> keep(p)
    ensures Filter(keep, ps) == ps
  {
    if ps != [] {
      KeepsAll(keep, ps[1..]);
      assert ps == [ps[0]] + ps[1..];
    }
  }

  /** Deleting takes out the profile with that id and leaves the others in their order. */
  lemma {:induction false} WithoutIsFilter(profiles: seq<Profile>, id: ProfileId)
    requires DistinctProfiles(profiles)
    ensures Without(profiles, id) == Filter((p: Profile) => p.id != id, profiles)
  {
    if profiles != [] {
      assert profiles == [profiles[0]] + profiles[1..];
      WithoutFirst(profiles[0], profiles[1..], id);
      if profiles[0].id == id {
        KeepsAll((p: Profile) => p.id != id, profiles[1..]);
      } else {
        WithoutIsFilter(profiles[1..], id);
      }
    }
  }

  class ProfileStore {
    var profiles: seq<Profile>

    ghost predicate Valid()
      reads this
    {
      DistinctProfiles(profiles)
    }

    constructor ()
      ensures Valid() && profiles == []
    {
      profiles := [];
    }

    method Load(id: ProfileId) returns (r: Result<Profile, Error>)
      ensures r == match Find(profiles, id)
                   case Some(i) => Ok(profiles[i])
                   case None => Err(NotFound(id))
    {
      match Find(profiles, id) {
        case Some(i) => return Ok(profiles[i]);
        case None => return Err(NotFound(id));
      }
    }

    method Save(p: Profile)
      requires Valid()
      modifies this
      ensures Valid() && profiles == Saved(old(profiles), p)
      ensures match Find(old(profiles), p.id)
              case Some(i) => profiles == old(profiles)[i := p]
              case None => profiles == old(profiles) + [p]
    {
      SavedKeepsDistinct(profiles, p);
      profiles := Saved(profiles, p);
    }

    method Delete(id: ProfileId) returns (r: Result<(), Error>)
      requires Valid()
      modifies this
      ensures Valid()
      ensures match Find(old(profiles), id)
              case Some(i) => r == Ok(()) && profiles == old(profiles)[..i] + old(profiles)[i + 1..]
              case None => r == Err(NotFound(id)) && profiles == old(profiles)
    {
      match Find(profiles, id) {
        case Some(i) =>
          profiles := profiles[..i] + profiles[i + 1..];
          return Ok(());
        case None => return Err(NotFound(id));
      }
    }

    function ListByMode(mode: Mode): seq<Profile>
      reads this
    {
      Filter(OfMode(mode), profiles)
    }

    /** The listing that name checks and exclusivity use: Hosts profiles only. */
    function List(): seq<Profile>
      reads this
    {
      ListByMode(HostsMode)
    }

    method DisableNext(exceptId: ProfileId, p: Profile, ghost before: seq<Profile>, ghost done: seq<Profile>)
      requires DistinctProfiles(before) && p in before && p.mode == HostsMode
      requires Valid() && profiles == Disabled(before, exceptId, done)
      modifies this
      ensures Valid() && profiles == Disabled(before, exceptId, done + [p])
    {
      DisableOne(before, exceptId, done, p);
      if p.enabled && p.id != exceptId {
        Save(p.(enabled := false));
      }
    }

    /** One save at a time. */
    method DisableEach(exceptId: ProfileId, all: seq<Profile>)
      requires Valid() && forall p :: p in all ==> p in profiles && p.mode == HostsMode
      modifies this
      ensures Valid() && profiles == Disabled(old(profiles), exceptId, all)
    {
      ghost var before := profiles;
      NoneDisabled(before, exceptId);
      for i := 0 to |all|
        invariant Valid() && profiles == Disabled(before, exceptId, all[..i])
      {
        assert all[..i + 1] == all[..i] + [all[i]];
        DisableNext(exceptId, all[i], before, all[..i]);
      }
      assert all[..|all|] == all;
    }

    /** Every other enabled Hosts profile is disabled. */
    method DisableOthers(exceptId: ProfileId)
      requires Valid()
      modifies this
      ensures Valid() && profiles == WithOthersDisabled(old(profiles), exceptId)
      ensures OthersOff(old(profiles), profiles, exceptId)
    {
      AllDisabled(profiles, exceptId);
      DisableEach(exceptId, List());
    }
  }

  lemma {:induction false} NoneDisabled(profiles: seq<Profile>, exceptId: ProfileId)
    ensures Disabled(profiles, exceptId, []) == profiles
  {
  }

  /** Hosts profiles other than this one are disabled, and nothing else is different. */
  ghost predicate OthersOff(before: seq<Profile>, after: seq<Profile>, exceptId: ProfileId) {
    |after| == |before| && forall i :: 0 <= i < |before| ==>
      after[i] == if before[i].mode == HostsMode && before[i].id != exceptId then before[i].(enabled := false)
                  else before[i]
  }

  /** Going through the listed profiles disables everything there is to disable. */
  lemma {:induction false} AllDisabled(profiles: seq<Profile>, exceptId: ProfileId)
    ensures Disabled(profiles, exceptId, Filter(OfMode(HostsMode), profiles)) == WithOthersDisabled(profiles, exceptId)
    ensures OthersOff(profiles, WithOthersDisabled(profiles, exceptId), exceptId)
  {
  }

  /** Those of `profiles` that are in `done` disabled, unless excepted. */
  ghost function Disabled(profiles: seq<Profile>, exceptId: ProfileId, done: seq<Profile>): seq<Profile> {
    seq(|profiles|, i requires 0 <= i < |profiles| =>
      if profiles[i] in done then DisabledUnless(exceptId, profiles[i]) else profiles[i])
  }

  lemma {:induction false} DisableOne(profiles: seq<Profile>, exceptId: ProfileId, done: seq<Profile>, p: Profile)
    requires DistinctProfiles(profiles) && p in profiles && p.mode == HostsMode
    ensures DistinctProfiles(Disabled(profiles, exceptId, done))
    ensures Disabled(profiles, exceptId, done + [p])
         == if p.enabled && p.id != exceptId then Saved(Disabled(profiles, exceptId, done), p.(enabled := false))
            else Disabled(profiles, exceptId, done)
  {
    var now, next := Disabled(profiles, exceptId, done), Disabled(profiles, exceptId, done + [p]);
    var n :| 0 <= n < |profiles| && profiles[n] == p;
    SameIdsDistinct(profiles, now);
    FoundIsUnique(now, n);
    forall k | 0 <= k < |profiles| && k != n ensures next[k] == now[k] {
      assert profiles[k].id != p.id;
    }
    assert next[n] == DisabledUnless(exceptId, p);
    if p.enabled && p.id != exceptId {
      assert next == now[n := p.(enabled := false)];
    } else {
      assert now[n] == p;
      assert next == now;
    }
  }

  lemma {:induction false} SameIdsDistinct(ps: seq<Profile>, qs: seq<Profile>)
    requires DistinctProfiles(ps) && |ps| == |qs| && forall i :: 0 <= i < |ps| ==> ps[i].id == qs[i].id
    ensures DistinctProfiles(qs)
  {
  }

  function DisabledUnless(exceptId: ProfileId, p: Profile): Profile {
    if p.mode == HostsMode && p.enabled && p.id != exceptId then p.(enabled := false) else p
  }

  function WithOthersDisabled(profiles: seq<Profile>, exceptId: ProfileId): seq<Profile> {
    seq(|profiles|, i requires 0 <= i < |profiles| => DisabledUnless(exceptId, profiles[i]))
  }
}
