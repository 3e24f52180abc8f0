/** One refresh of one source: conditional request, the 304 detour when the cache file is gone,
    checks on the body, cache write and bookkeeping. */
module Refresh {
  import opened Base
  import opened AdBlockModel
  import opened Blocklist

  /** What a server publishes. `body` is `None` when it is not UTF-8. */
  datatype Version = Version(revision: nat, body: Option<string>, etag: Option<string>)

  datatype Reply = Fresh(version: Version) | NotModified | Failed

  /** Conditional headers of section 3 of RFC 7232. */
  datatype Request = Request(ifNoneMatch: Option<string>, ifModifiedSince: Option<nat>)

  const UNCONDITIONAL := Request(None, None)

  /** A forced refresh drops both headers. */
  function RequestFor(s: Source, force: bool): Request {
    if force then UNCONDITIONAL else Request(s.etag, s.lastFetchedAt)
  }

  function RulesLimit(s: Source): nat {
    if s.rulesLimitOverride.Some? then s.rulesLimitOverride.value else MAX_RULES_PER_SOURCE
  }

  const PARSE_ERROR_WARN_MIN: nat := 10
  const PARSE_ERROR_WARN_RATIO_DEN: nat := 20

  predicate WorthWarning(p: Parse) {
    p.errors >= PARSE_ERROR_WARN_MIN && p.errors > |p.domains| / PARSE_ERROR_WARN_RATIO_DEN
  }

  const WARNING := "lines failed to parse"
  const FAILURE := "refresh failed"

  /** The rules a body yields for a source, or `None` when it must be rejected whole: not text,
      over the limit, or nothing but malformed lines. */
  function Judge(isIp: string -> bool, s: Source, v: Version): Option<Parse> {
    if v.body == None then None
    else
      var p := ParseBlocklist(isIp, s.format, v.body.value);
      if |p.domains| > RulesLimit(s) then None
      else if p.domains == [] && p.errors > 0 then None
      else Some(p)
  }

  /** A body that may be installed: text, within the limit of the source or else the default, and
      not all of it malformed. */
  ghost predicate Acceptable(isIp: string -> bool, s: Source, v: Version) {
    v.body.Some? &&
    var p := ParseBlocklist(isIp, s.format, v.body.value);
    && |p.domains| <= (match s.rulesLimitOverride
                       case Some(n) => n
                       case None => 500_000)
    && (p.domains == [] ==> p.errors == 0)
  }

  lemma {:induction false} JudgeIff(isIp: string -> bool, s: Source, v: Version)
    ensures Judge(isIp, s, v).Some? <==> Acceptable(isIp, s, v)
    ensures Acceptable(isIp, s, v) ==> Judge(isIp, s, v).value == ParseBlocklist(isIp, s.format, v.body.value)
  {
  }

  // -------------------------------------------------------------------------
  // Bookkeeping on a record
  // -------------------------------------------------------------------------

  function Installed(s: Source, v: Version, p: Parse, now: nat): Source {
    s.(lastError := if WorthWarning(p) then Some(WARNING) else None,
       lastFetchedAt := Some(now), ruleCount := |p.domains|, etag := v.etag)
  }

  function Revalidated(s: Source, now: nat): Source {
    s.(lastError := None, lastFetchedAt := Some(now))
  }

  function Errored(s: Source): Source {
    s.(lastError := Some(FAILURE))
  }

  /** The fields a failed refresh must not touch: everything but `lastError`. */
  ghost predicate SameButError(s: Source, t: Source) {
    t == s.(lastError := t.lastError)
  }

  /** The cache text is the canonical form of the body that etag and rule count describe. */
  ghost predicate Describes(isIp: string -> bool, s: Source, v: Version, text: string) {
    && v.body.Some?
    && text == Canon(ParseBlocklist(isIp, s.format, v.body.value).domains)
    && s.etag == v.etag
    && s.ruleCount == |ParseBlocklist(isIp, s.format, v.body.value).domains|
  }

  // -------------------------------------------------------------------------
  // The whole refresh, when nothing else runs
  // -------------------------------------------------------------------------

  function IndexOf(sources: seq<Source>, id: SourceId): (r: Option<nat>)
    ensures r.Some? ==> r.value < |sources| && sources[r.value].id == id
    ensures r.None? ==> forall s :: s in sources ==> s.id != id
  {
    if sources == [] then None
    else if sources[0].id == id then Some(0)
    else match IndexOf(sources[1..], id)
         case Some(k) => Some(k + 1)
         case None => None
  }

  datatype Outcome = Refused | Kept | Replaced(version: Version, parse: Parse)

  /** How a refresh ends. `answer(n, r)` is what the server says to the n-th request of this
      refresh, `present` whether the cache file is there when a 304 arrives, `writable` whether
      it can be written. */
  function Settle(isIp: string -> bool, s: Source, present: bool, force: bool,
                  answer: (nat, Request) -> Reply, writable: bool): Outcome
  {
    var first := answer(0, RequestFor(s, force));
    if first == NotModified && present then Kept
    else
      var sent := if first == NotModified then answer(1, UNCONDITIONAL) else first;
      if sent.Fresh? && Judge(isIp, s, sent.version).Some? && writable
      then Replaced(sent.version, Judge(isIp, s, sent.version).value)
      else Refused
  }

  /** A 304 is accepted if and only if the cache file is there, and a list is installed if and only
      if the reply that counts brings an acceptable body and the disk takes it: the first reply, or
      the second one, to a request without conditions, after a 304 without a file. What is installed
      is described by its own record. */
  lemma {:induction false} SettleIsSound(isIp: string -> bool, s: Source, present: bool, force: bool,
                      answer: (nat, Request) -> Reply, writable: bool)
    ensures var o := Settle(isIp, s, present, force, answer, writable);
      var first := answer(0, if force then Request(None, None) else Request(s.etag, s.lastFetchedAt));
      var deciding := if first == NotModified then answer(1, Request(None, None)) else first;
      && (o == Kept <==> first == NotModified && present)
      && (o.Replaced? <==> o != Kept && deciding.Fresh? && Acceptable(isIp, s, deciding.version) && writable)
      && (o.Replaced? ==> o == Replaced(deciding.version,
                                ParseBlocklist(isIp, s.format, deciding.version.body.value)))
      && (o.Replaced? ==>
            forall now :: Describes(isIp, Installed(s, o.version, o.parse, now), o.version, Canon(o.parse.domains)))
  {
    var first := answer(0, RequestFor(s, force));
    var deciding := if first == NotModified then answer(1, UNCONDITIONAL) else first;
    if deciding.Fresh? {
      JudgeIff(isIp, s, deciding.version);
    }
  }

  /** The file is the canonical text of the body; the record of the source has its etag, its number
      of rules and the time, and a warning if more than one line in twenty, and at least ten lines,
      were malformed. */
  ghost predicate InstalledFrom(isIp: string -> bool, s: Source, v: Version, now: nat, before: map<SourceId, string>,
      after: map<SourceId, string>, records: seq<Source>, records': seq<Source>, i: nat)
  {
    v.body.Some? && i < |records| &&
    var p := ParseBlocklist(isIp, s.format, v.body.value);
    && after == before[s.id := Canon(p.domains)]
    && records' == records[i := s.(
         etag := v.etag, ruleCount := |p.domains|, lastFetchedAt := Some(now),
         lastError := if p.errors >= 10 && p.errors > |p.domains| / 20 then Some(WARNING) else None)]
  }

  class SourceStore {
    var sources: seq<Source>
    var disk: map<SourceId, string>

    constructor (sources: seq<Source>, disk: map<SourceId, string>)
      ensures this.sources == sources && this.disk == disk
    {
      this.sources, this.disk := sources, disk;
    }

    method Update(i: nat, s: Source)
      requires i < |sources|
      modifies this`sources
      ensures sources == old(sources)[i := s]
    {
      sources := sources[i := s];
    }

    /** The reply that counts is the first one, or the second one, to a request without
        conditions, if the first was a 304 and there was no file to keep. The refresh succeeds if
        and only if the first is a 304 and the file is there, or the one that counts brings an
        acceptable body and the disk takes it. A failure records its message and nothing else. */
    method FetchAndCacheSource(isIp: string -> bool, id: SourceId, force: bool,
                               answer: (nat, Request) -> Reply, writable: bool, now: nat)
      returns (ok: bool)
      modifies this
      ensures IndexOf(old(sources), id) == None ==> !ok && sources == old(sources) && disk == old(disk)
      ensures IndexOf(old(sources), id).Some? ==>
                var i := IndexOf(old(sources), id).value;
                var s := old(sources)[i];
                var first := answer(0, if force then Request(None, None) else Request(s.etag, s.lastFetchedAt));
                var kept := first == NotModified && id in old(disk);
                var deciding := if first == NotModified then answer(1, Request(None, None)) else first;
                && (ok <==> kept || (deciding.Fresh? && Acceptable(isIp, s, deciding.version) && writable))
                && (if !ok then disk == old(disk) && sources == old(sources)[i := s.(lastError := Some(FAILURE))]
                    else if kept then
                      disk == old(disk)
                      && sources == old(sources)[i := s.(lastError := None, lastFetchedAt := Some(now))]
                    else InstalledFrom(isIp, s, deciding.version, now, old(disk), disk, old(sources), sources, i))
      ensures !ok ==> disk == old(disk) && |sources| == |old(sources)|
                      && forall k :: 0 <= k < |sources| ==> SameButError(old(sources)[k], sources[k])
    {
      var index := IndexOf(sources, id);
      if index == None {
        return false;
      }
      var i := index.value;
      var source := sources[i];
      var outcome := answer(0, RequestFor(source, force));
      if outcome == NotModified && id !in disk {
        outcome := answer(1, UNCONDITIONAL);
        if outcome == NotModified {
          Update(i, Errored(source));
          return false;
        }
      }
      match outcome {
        case Failed =>
          Update(i, Errored(source));
          return false;
        case NotModified =>
          Update(i, Revalidated(source, now));
          return true;
        case Fresh(version) =>
          var judged := Judge(isIp, source, version);
          JudgeIff(isIp, source, version);
          if judged == None || !writable {
            Update(i, Errored(source));
            return false;
          }
          var canon := WriteCanon(judged.value.domains);
          disk := disk[id := canon];
          Update(i, Installed(source, version, judged.value, now));
          return true;
      }
    }
  }
}
