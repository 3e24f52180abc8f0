/** What each command on the ad-block state does to the answers that clients get. */
module CommandEffects {
  import opened Base
  import opened AdBlockModel
  import opened Text
  import opened Domains
  import opened RuleInputs
  import opened Refresh
  import opened Trie
  import opened Overlap
  import opened Verdicts
  import opened AdBlockCommands

  function SourceWith(sources: seq<Source>, id: SourceId): Option<Source> {
    match IndexOf(sources, id)
    case Some(i) => Some(sources[i])
    case None => None
  }

  /** How a source makes the server answer, if it is there and enabled. */
  function AnswersWith(s: AdBlockState, id: SourceId): Option<Response> {
    match SourceWith(s.sources, id)
    case Some(source) => if source.enabled then Some(source.response) else None
    case None => None
  }

  /** The cached list of this source names the query or a parent of it. */
  ghost predicate ListCovers(env: Env, disk: Disk, id: SourceId, query: string) {
    exists d :: d in env.parse(CacheText(disk, id)) && IsSuffixAtDot(d, query)
  }

  /** Which queries are blocked depends on the sources through that alone. */
  lemma {:induction false} BlockedByTable(env: Env, s: AdBlockState, disk: Disk, response: Response, query: string)
    requires DistinctIds(s.sources)
    ensures Blocked(env, s, disk, response, query)
       <==> exists id :: AnswersWith(s, id) == Some(response) && ListCovers(env, disk, id, query)
  {
    if k: nat, d: string :| Lists(env, s.sources, disk, response, d, k) && IsSuffixAtDot(d, query) {
      var id := s.sources[k].id;
      IndexIsUnique(s.sources, k);
      assert AnswersWith(s, id) == Some(response) && ListCovers(env, disk, id, query);
    }
    if id: SourceId :| AnswersWith(s, id) == Some(response) && ListCovers(env, disk, id, query) {
      var d :| d in env.parse(CacheText(disk, id)) && IsSuffixAtDot(d, query);
      assert Lists(env, s.sources, disk, response, d, IndexOf(s.sources, id).value);
    }
  }

  lemma {:induction false} HeadOrTail(first: Source, rest: seq<Source>, x: SourceId)
    ensures SourceWith([first] + rest, x) == if first.id == x then Some(first) else SourceWith(rest, x)
  {
    assert ([first] + rest)[1..] == rest;
  }

  lemma {:induction false} FoundAfterRemoval(sources: seq<Source>, id: SourceId, x: SourceId)
    ensures SourceWith(Filter(HasOtherId(id), sources), x) == if x == id then None else SourceWith(sources, x)
  {
    if sources != [] {
      var first, rest := sources[0], sources[1..];
      FoundAfterRemoval(rest, id, x);
      assert sources == [first] + rest;
      HeadOrTail(first, rest, x);
      HeadOrTail(first, Filter(HasOtherId(id), rest), x);
      assert [] + Filter(HasOtherId(id), rest) == Filter(HasOtherId(id), rest);
    }
  }

  lemma {:induction false} FoundAfterAdding(sources: seq<Source>, source: Source, x: SourceId)
    requires forall y :: y in sources ==> y.id != source.id
    ensures SourceWith(sources + [source], x) == if x == source.id then Some(source) else SourceWith(sources, x)
  {
    if sources == [] {
      HeadOrTail(source, [], x);
      assert [] + [source] == [source] + [];
    } else {
      var first, rest := sources[0], sources[1..];
      FoundAfterAdding(rest, source, x);
      assert sources == [first] + rest && sources + [source] == [first] + (rest + [source]);
      HeadOrTail(first, rest, x);
      HeadOrTail(first, rest + [source], x);
    }
  }

  lemma {:induction false} FoundAfterChange(sources: seq<Source>, id: SourceId, change: Source -> Source, x: SourceId)
    requires forall s: Source :: change(s).id == s.id
    ensures SourceWith(Changed(sources, id, change), x)
         == match SourceWith(sources, x)
            case Some(s) => Some(if x == id then change(s) else s)
            case None => None
  {
    SameIdsSameIndex(sources, Changed(sources, id, change), x);
  }

  lemma {:induction false} SameIdsSameIndex(a: seq<Source>, b: seq<Source>, x: SourceId)
    requires |a| == |b| && forall i :: 0 <= i < |a| ==> a[i].id == b[i].id
    ensures IndexOf(a, x) == IndexOf(b, x)
  {
    if a != [] {
      SameIdsSameIndex(a[1..], b[1..], x);
    }
  }

  lemma {:induction false} MemberIsFound(sources: seq<Source>, x: Source)
    requires DistinctIds(sources) && x in sources
    ensures SourceWith(sources, x.id) == Some(x)
  {
    var i :| 0 <= i < |sources| && sources[i] == x;
    IndexIsUnique(sources, i);
  }

  /** Lists with the same members find the same sources. */
  lemma {:induction false} SameMembersFound(a: seq<Source>, b: seq<Source>, x: SourceId)
    requires DistinctIds(a) && DistinctIds(b) && forall s :: s in a <==> s in b
    ensures SourceWith(a, x) == SourceWith(b, x)
  {
    if SourceWith(a, x).Some? {
      MemberIsFound(b, SourceWith(a, x).value);
    }
    if SourceWith(b, x).Some? {
      MemberIsFound(a, SourceWith(b, x).value);
    }
  }

  lemma {:induction false} SwappedMembers(sources: seq<Source>, i: nat, j: nat)
    requires i < |sources| && j < |sources| && DistinctIds(sources)
    ensures DistinctIds(Swapped(sources, i, j)) && forall s :: s in sources <==> s in Swapped(sources, i, j)
  {
    var moved := Swapped(sources, i, j);
    forall s | s in sources ensures s in moved {
      var k :| 0 <= k < |sources| && sources[k] == s;
      assert moved[if k == i then j else if k == j then i else k] == s;
    }
  }

  lemma {:induction false} FoundAfterMove(sources: seq<Source>, id: SourceId, direction: Direction, x: SourceId)
    requires DistinctIds(sources)
    ensures SourceWith(Reordered(sources, id, direction), x) == SourceWith(sources, x)
  {
    var pos := IndexOf(sources, id);
    if pos.Some? {
      var target := MoveTarget(|sources|, pos.value, direction);
      SwappedMembers(sources, pos.value, target);
      SameMembersFound(sources, Swapped(sources, pos.value, target), x);
    }
  }

  /** What a command does to the answers of one source. Nothing but enabling, disabling, adding,
      removing it and changing its response does anything. */
  lemma {:induction false} TableAfter(isIp: string -> bool, c: Command, s: AdBlockState, x: SourceId)
    requires DistinctIds(s.sources) && Possible(isIp, c, s)
    ensures AnswersWith(After(c, s), x)
         == match c
            case SetSourceEnabled(id, enabled) =>
              if x != id then AnswersWith(s, x)
              else (match SourceWith(s.sources, x)
                    case Some(source) => if enabled then Some(source.response) else None
                    case None => None)
            case SetSourceResponse(id, response) =>
              if x == id && AnswersWith(s, x).Some? then Some(response) else AnswersWith(s, x)
            case Remove(id) => if x == id then None else AnswersWith(s, x)
            case Add(source) =>
              if x != source.id then AnswersWith(s, x) else if source.enabled then Some(source.response) else None
            case _ => AnswersWith(s, x)
  {
    match c
    case SetSourceEnabled(id, enabled) => FoundAfterChange(s.sources, id, (y: Source) => y.(enabled := enabled), x);
    case SetSourceResponse(id, response) => FoundAfterChange(s.sources, id, (y: Source) => y.(response := response), x);
    case Remove(id) => FoundAfterRemoval(s.sources, id, x);
    case Add(source) => FoundAfterAdding(s.sources, source, x);
    case Reorder(id, direction) => FoundAfterMove(s.sources, id, direction, x);
    case SetLimit(id, limit) =>
      if LimitAllowed(limit) {
        FoundAfterChange(s.sources, id, WithLimit(limit), x);
      }
    case Record(read, outcome, now) => FoundAfterChange(s.sources, read.id, Noted(outcome, now), x);
    case _ =>
  }

  /** What the end of a refresh and a new limit leave in the record of a source. */
  lemma {:induction false} RecordAfter(c: Command, s: AdBlockState, x: SourceId)
    requires c.Record? || c.SetLimit?
    ensures SourceWith(After(c, s).sources, x)
         == match SourceWith(s.sources, x)
            case None => None
            case Some(t) => Some(
              match c
              case SetLimit(id, limit) =>
                if x == id && (limit.Some? ==> 1 <= limit.value <= 2_000_000) then t.(rulesLimitOverride := limit)
                else t
              case Record(read, outcome, now) =>
                if x != read.id then t
                else (match outcome
                      case Refused => t.(lastError := Some(FAILURE))
                      case Kept => t.(lastError := None, lastFetchedAt := Some(now))
                      case Replaced(v, p) =>
                        t.(etag := v.etag, ruleCount := |p.domains|, lastFetchedAt := Some(now),
                           lastError := if p.errors >= 10 && p.errors > |p.domains| / 20 then Some(WARNING) else None))
              case _ => t)
  {
    match c
    case SetLimit(id, limit) =>
      if LimitAllowed(limit) {
        FoundAfterChange(s.sources, id, WithLimit(limit), x);
      }
    case Record(read, outcome, now) => FoundAfterChange(s.sources, read.id, Noted(outcome, now), x);
  }

  ghost predicate AllowedAfter(c: Command, s: AdBlockState, w: string) {
    match c
    case AddEntries(inputs) => w in s.whitelist || Asked(inputs, w)
    case RemoveEntries(inputs) => w in s.whitelist && !Targeted(inputs, w)
    case _ => w in s.whitelist
  }

  /** And what it does to whitelist and settings. */
  lemma {:induction false} SettingsAfter(c: Command, s: AdBlockState)
    ensures After(c, s).enabled == if c.SetEnabled? then c.enabled else s.enabled
    ensures After(c, s).autoRefreshEnabled == if c.SetAutoRefresh? then c.enabled else s.autoRefreshEnabled
    ensures After(c, s).refreshIntervalHours
         == if !c.SetInterval? then s.refreshIntervalHours else if c.hours > 168 then 168 else c.hours
    ensures forall w :: w in After(c, s).whitelist <==> AllowedAfter(c, s, w)
  {
    match c
    case AddEntries(inputs) =>
      InputsAreSorted(inputs);
      WhitelistBatches(s.whitelist, AcceptedOf(inputs));
    case RemoveEntries(inputs) =>
      TargetsAreNamed(inputs);
      WhitelistBatches(s.whitelist, TargetsOf(inputs));
    case _ =>
  }

  /** If the sources block a query one way before a command and not after it, then the command has
      disabled, removed or redirected a source that did, with a list that covers the query. */
  lemma {:induction false} UnblockedBy(isIp: string -> bool, env: Env, c: Command, s: AdBlockState, disk: Disk,
      response: Response, query: string)
    requires DistinctIds(s.sources) && DistinctIds(After(c, s).sources) && Possible(isIp, c, s)
    requires Blocked(env, s, disk, response, query) && !Blocked(env, After(c, s), disk, response, query)
    ensures (c.SetSourceEnabled? && !c.enabled) || c.Remove? || (c.SetSourceResponse? && c.response != response)
    ensures AnswersWith(s, c.id) == Some(response) && ListCovers(env, disk, c.id, query)
  {
    BlockedByTable(env, s, disk, response, query);
    BlockedByTable(env, After(c, s), disk, response, query);
    var id :| AnswersWith(s, id) == Some(response) && ListCovers(env, disk, id, query);
    TableAfter(isIp, c, s, id);
  }
}
