/** The commands on the ad-block state: what each keeps, whole runs of them, and that reordering
    sources is presentation only. */
module AdBlockCommands {
  import opened Base
  import opened AdBlockModel
  import opened Text
  import opened Domains
  import opened Blocklist
  import opened Refresh
  import opened RuleInputs

  const MAX_INTERVAL_HOURS: nat := 168

  // -------------------------------------------------------------------------
  // The whitelist
  // -------------------------------------------------------------------------

  /** Entries that pass validation, in canonical form, and the inputs that do not. */
  function AcceptedOf(inputs: seq<string>): seq<string> {
    if inputs == [] then []
    else
      var last := ValidateDomain(inputs[|inputs| - 1]);
      AcceptedOf(inputs[..|inputs| - 1]) + if last.Some? then [last.value] else []
  }

  function RejectedOf(inputs: seq<string>): seq<string> {
    if inputs == [] then []
    else
      var last := inputs[|inputs| - 1];
      RejectedOf(inputs[..|inputs| - 1]) + if ValidateDomain(last) == None then [last] else []
  }

  /** The entries appended that are not there yet. */
  function WithEntries(whitelist: seq<string>, entries: seq<string>): seq<string> {
    if entries == [] then whitelist
    else
      var before := WithEntries(whitelist, entries[..|entries| - 1]);
      var last := entries[|entries| - 1];
      if last in before then before else before + [last]
  }

  function Not(target: string): string -> bool {
    (d: string) => d != target
  }

  function WithoutEntries(whitelist: seq<string>, targets: seq<string>): seq<string> {
    if targets == [] then whitelist
    else Filter(Not(targets[|targets| - 1]), WithoutEntries(whitelist, targets[..|targets| - 1]))
  }

  /** Removal normalises but does not validate. */
  function TargetsOf(inputs: seq<string>): seq<string> {
    if inputs == [] then []
    else
      var last := Lower(Trim(inputs[|inputs| - 1]));
      TargetsOf(inputs[..|inputs| - 1]) + if last != [] then [last] else []
  }

  /** The entry a whitelist input stands for: a host name, in lower case and without white space
      around it. */
  ghost predicate StandsFor(raw: string, d: string) {
    d == Lower(Trim(raw)) && IsHostname(d)
  }

  /** Some input stands for this entry. */
  ghost predicate Asked(inputs: seq<string>, d: string) {
    exists raw :: raw in inputs && StandsFor(raw, d)
  }

  /** A removal names its targets in any case, host names or not. */
  ghost predicate Targeted(inputs: seq<string>, d: string) {
    d != [] && exists raw :: raw in inputs && Lower(Trim(raw)) == d
  }

  ghost predicate IsRefused(raw: string) {
    forall d :: !StandsFor(raw, d)
  }

  ghost predicate Refuses(inputs: seq<string>, rejected: seq<string>) {
    rejected == Filter(raw => IsRefused(raw), inputs)
  }

  /** Accepted is exactly what some input stands for, rejected are the inputs that stand for nothing,
      in order. */
  lemma {:induction false} InputsAreSorted(inputs: seq<string>)
    ensures forall d :: d in AcceptedOf(inputs) <==> Asked(inputs, d)
    ensures Refuses(inputs, RejectedOf(inputs))
  {
    if inputs != [] {
      var front, last := inputs[..|inputs| - 1], inputs[|inputs| - 1];
      InputsAreSorted(front);
      assert inputs == front + [last];
      FilterSnoc(raw => IsRefused(raw), front, last);
      ValidatedIff(last);
      forall d ensures d in AcceptedOf(inputs) <==> Asked(inputs, d) {
        AskedSnoc(front, last, d);
      }
    }
  }

  lemma {:induction false} AskedSnoc(front: seq<string>, last: string, d: string)
    ensures Asked(front + [last], d) <==> Asked(front, d) || StandsFor(last, d)
  {
    assert forall raw :: raw in front + [last] <==> raw in front || raw == last;
  }

  lemma {:induction false} ValidatedIff(raw: string)
    ensures forall d :: ValidateDomain(raw) == Some(d) <==> StandsFor(raw, d)
    ensures ValidateDomain(raw) == None <==> IsRefused(raw)
  {
    forall d ensures ValidateDomain(raw) == Some(d) <==> StandsFor(raw, d) {
      ValidatorIsGrammar(raw, d);
    }
    assert ValidateDomain(raw).Some? ==> StandsFor(raw, ValidateDomain(raw).value);
  }

  lemma {:induction false} TargetsAreNamed(inputs: seq<string>)
    ensures forall d :: d in TargetsOf(inputs) <==> Targeted(inputs, d)
  {
    if inputs != [] {
      var front, last := inputs[..|inputs| - 1], inputs[|inputs| - 1];
      TargetsAreNamed(front);
      assert inputs == front + [last];
      forall d ensures d in TargetsOf(inputs) <==> Targeted(inputs, d) {
        assert Targeted(inputs, d) <==> Targeted(front, d) || (d != [] && Lower(Trim(last)) == d);
      }
    }
  }

  /** New entries go behind the old ones. */
  lemma {:induction false} EntriesAreAppended(whitelist: seq<string>, entries: seq<string>)
    ensures whitelist <= WithEntries(whitelist, entries)
  {
    if entries != [] {
      EntriesAreAppended(whitelist, entries[..|entries| - 1]);
    }
  }

  lemma {:induction false} FilterTwice<T(!new)>(p: T -> bool, q: T -> bool, both: T -> bool, s: seq<T>)
    requires forall x :: both(x) <==> p(x) && q(x)
    ensures Filter(p, Filter(q, s)) == Filter(both, s)
  {
    if s != [] {
      FilterTwice(p, q, both, s[1..]);
      var kept := if q(s[0]) then [s[0]] else [];
      FilterConcat(p, kept, Filter(q, s[1..]));
      assert [s[0]][1..] == [];
    }
  }

  /** Removing one target after the other keeps exactly the entries that are no target, in order. */
  lemma {:induction false} RemovalIsFilter(whitelist: seq<string>, targets: seq<string>)
    ensures WithoutEntries(whitelist, targets) == Filter(d => d !in targets, whitelist)
  {
    if targets == [] {
      FilterAll(d => d !in targets, whitelist);
    } else {
      var front, last := targets[..|targets| - 1], targets[|targets| - 1];
      RemovalIsFilter(whitelist, front);
      assert targets == front + [last];
      FilterTwice(Not(last), d => d !in front, d => d !in targets, whitelist);
    }
  }

  lemma {:induction false} FilterAll<T(!new)>(keep: T -> bool, s: seq<T>)
    requires forall x :: x in s ==> keep(x)
    ensures Filter(keep, s) == s
  {
    if s != [] {
      FilterAll(keep, s[1..]);
      assert s == [s[0]] + s[1..];
    }
  }

  lemma {:induction false} FilterSame<T(!new)>(p: T -> bool, q: T -> bool, s: seq<T>)
    requires forall x :: p(x) == q(x)
    ensures Filter(p, s) == Filter(q, s)
  {
    if s != [] {
      FilterSame(p, q, s[1..]);
    }
  }

  // -------------------------------------------------------------------------
  // Sources
  // -------------------------------------------------------------------------

  datatype Direction = Up | Down

  /** Where the source moves to; its own place at the ends of the list. */
  function MoveTarget(n: nat, pos: nat, direction: Direction): (r: nat)
    requires pos < n
    ensures r < n
  {
    match direction
    case Up => if pos > 0 then pos - 1 else pos
    case Down => if pos + 1 < n then pos + 1 else pos
  }

  function Swapped<T>(s: seq<T>, i: nat, j: nat): seq<T>
    requires i < |s| && j < |s|
  {
    s[i := s[j]][j := s[i]]
  }

  function Reordered(sources: seq<Source>, id: SourceId, direction: Direction): seq<Source> {
    match IndexOf(sources, id)
    case None => sources
    case Some(pos) => Swapped(sources, pos, MoveTarget(|sources|, pos, direction))
  }

  /** The source is there and not already at that end of the list. */
  predicate Moves(sources: seq<Source>, id: SourceId, direction: Direction) {
    var pos := IndexOf(sources, id);
    pos.Some? && MoveTarget(|sources|, pos.value, direction) != pos.value
  }

  predicate LimitAllowed(limit: Option<nat>) {
    limit.Some? ==> 1 <= limit.value <= ABSOLUTE_MAX_RULES_PER_SOURCE
  }

  method Normalised(inputs: seq<string>) returns (targets: seq<string>)
    ensures targets == TargetsOf(inputs)
  {
    targets := [];
    for i := 0 to |inputs|
      invariant targets == TargetsOf(inputs[..i])
    {
      assert inputs[..i + 1][..i] == inputs[..i];
      var target := Lower(Trim(inputs[i]));
      if target != [] {
        targets := targets + [target];
      }
    }
    assert inputs[..|inputs|] == inputs;
  }

  /** Drops the targets one by one, counting what goes. */
  method Retain(before: seq<string>, targets: seq<string>) returns (whitelist: seq<string>, removed: nat)
    ensures whitelist == WithoutEntries(before, targets)
    ensures removed > 0 <==> whitelist != before
  {
    whitelist, removed := before, 0;
    for i := 0 to |targets|
      invariant whitelist == WithoutEntries(before, targets[..i])
      invariant |whitelist| == |before| - removed
      invariant removed == 0 ==> whitelist == before
    {
      assert targets[..i + 1][..i] == targets[..i];
      FilterShorterIff(Not(targets[i]), whitelist);
      var kept := Filter(Not(targets[i]), whitelist);
      removed := removed + (|whitelist| - |kept|);
      whitelist := kept;
    }
    assert targets[..|targets|] == targets;
  }

  function WithLimit(limit: Option<nat>): Source -> Source {
    (s: Source) => s.(rulesLimitOverride := limit)
  }

  class AdBlockStore {
    var state: AdBlockState
    /** How often the state was persisted and the rules reloaded. */
    var persists: nat

    constructor (state: AdBlockState)
      ensures this.state == state && persists == 0
    {
      this.state, persists := state, 0;
    }

    method AddWhitelist(inputs: seq<string>) returns (rejected: seq<string>)
      modifies this
      ensures old(state).whitelist <= state.whitelist
      ensures forall d :: d in state.whitelist <==> d in old(state).whitelist || Asked(inputs, d)
      ensures Refuses(inputs, rejected)
      ensures state == old(state).(whitelist := WithEntries(old(state).whitelist, AcceptedOf(inputs)))
      ensures rejected == RejectedOf(inputs)
      ensures persists == old(persists) + if state.whitelist != old(state).whitelist then 1 else 0
    {
      var accepted: seq<string> := [];
      rejected := [];
      for i := 0 to |inputs|
        invariant accepted == AcceptedOf(inputs[..i]) && rejected == RejectedOf(inputs[..i])
      {
        assert inputs[..i + 1][..i] == inputs[..i];
        match ValidateDomain(inputs[i]) {
          case Some(d) => accepted := accepted + [d];
          case None => rejected := rejected + [inputs[i]];
        }
      }
      assert inputs[..|inputs|] == inputs;
      var whitelist, newlyAdded := state.whitelist, 0;
      for i := 0 to |accepted|
        invariant whitelist == WithEntries(state.whitelist, accepted[..i])
        invariant |whitelist| == |state.whitelist| + newlyAdded
        invariant newlyAdded == 0 ==> whitelist == state.whitelist
      {
        assert accepted[..i + 1][..i] == accepted[..i];
        if accepted[i] !in whitelist {
          whitelist, newlyAdded := whitelist + [accepted[i]], newlyAdded + 1;
        }
      }
      assert accepted[..|accepted|] == accepted;
      InputsAreSorted(inputs);
      EntriesAreAppended(state.whitelist, accepted);
      WhitelistBatches(state.whitelist, accepted);
      state := state.(whitelist := whitelist);
      if newlyAdded > 0 {
        persists := persists + 1;
      }
    }

    method RemoveWhitelist(inputs: seq<string>)
      modifies this
      ensures state == old(state).(whitelist := Filter(d => !Targeted(inputs, d), old(state).whitelist))
      ensures state == old(state).(whitelist := WithoutEntries(old(state).whitelist, TargetsOf(inputs)))
      ensures persists == old(persists) + if state.whitelist != old(state).whitelist then 1 else 0
    {
      var targets := Normalised(inputs);
      TargetsAreNamed(inputs);
      RemovalIsFilter(state.whitelist, targets);
      FilterSame(d => d !in targets, d => !Targeted(inputs, d), state.whitelist);
      if targets == [] {
        return;
      }
      var whitelist, removed := Retain(state.whitelist, targets);
      state := state.(whitelist := whitelist);
      if removed > 0 {
        persists := persists + 1;
      }
    }

    method ReorderSource(id: SourceId, direction: Direction) returns (ok: bool)
      modifies this
      ensures ok <==> IndexOf(old(state).sources, id).Some?
      ensures state == old(state).(sources := state.sources)
      ensures match IndexOf(old(state).sources, id)
              case None => state.sources == old(state).sources
              case Some(p) =>
                var q := if direction == Up then p - 1 else p + 1;
                if 0 <= q < |old(state).sources|
                then state.sources == old(state).sources[p := old(state).sources[q]][q := old(state).sources[p]]
                else state.sources == old(state).sources
      ensures state.sources == Reordered(old(state).sources, id, direction)
      ensures persists == old(persists) + if Moves(old(state).sources, id, direction) then 1 else 0
    {
      var pos := IndexOf(state.sources, id);
      if pos == None {
        return false;
      }
      var target := MoveTarget(|state.sources|, pos.value, direction);
      if target == pos.value {
        return true;
      }
      state := state.(sources := Swapped(state.sources, pos.value, target));
      persists := persists + 1;
      return true;
    }

    method SetRulesLimitOverride(id: SourceId, limit: Option<nat>) returns (ok: bool)
      modifies this
      ensures ok <==> (limit.Some? ==> 1 <= limit.value <= 2_000_000) && IndexOf(old(state).sources, id).Some?
      ensures !ok ==> state == old(state) && persists == old(persists)
      ensures ok ==> state == old(state).(sources := Changed(old(state).sources, id, WithLimit(limit)))
                     && persists == old(persists) + 1
      ensures ok ==> var p := IndexOf(old(state).sources, id).value;
                     state.sources == old(state).sources[p := old(state).sources[p].(rulesLimitOverride := limit)]
    {
      if limit.Some? {
        if limit.value == 0 {
          return false;
        }
        if limit.value > ABSOLUTE_MAX_RULES_PER_SOURCE {
          return false;
        }
      }
      var pos := IndexOf(state.sources, id);
      if pos == None {
        return false;
      }
      state := state.(sources := state.sources[pos.value := state.sources[pos.value].(rulesLimitOverride := limit)]);
      persists := persists + 1;
      return true;
    }

    method SetRefreshInterval(hours: nat)
      modifies this
      ensures state == old(state).(refreshIntervalHours := if hours > 168 then 168 else hours)
      ensures persists == old(persists) + 1
    {
      state := state.(refreshIntervalHours := if hours > MAX_INTERVAL_HOURS then MAX_INTERVAL_HOURS else hours);
      persists := persists + 1;
    }
  }

  /** The first source with this id changed in place. */
  function Changed(sources: seq<Source>, id: SourceId, change: Source -> Source): seq<Source> {
    match IndexOf(sources, id)
    case None => sources
    case Some(i) => sources[i := change(sources[i])]
  }

  lemma {:induction false} FilterShorterIff(keep: string -> bool, s: seq<string>)
    ensures |Filter(keep, s)| == |s| ==> Filter(keep, s) == s
  {
    if s != [] {
      FilterShorterIff(keep, s[1..]);
    }
  }

  // -------------------------------------------------------------------------
  // Invariants over all runs of commands
  // -------------------------------------------------------------------------

  ghost predicate ValidSource(s: Source) {
    LimitAllowed(s.rulesLimitOverride) && s.ruleCount <= ABSOLUTE_MAX_RULES_PER_SOURCE
  }

  ghost predicate ValidWhitelist(whitelist: seq<string>) {
    NoDuplicates(whitelist) && forall w :: w in whitelist ==> ValidateDomain(w) == Some(w)
  }

  ghost predicate ValidState(s: AdBlockState) {
    && ValidWhitelist(s.whitelist)
    && DistinctIds(s.sources) && (forall i :: 0 <= i < |s.sources| ==> ValidSource(s.sources[i]))
    && s.refreshIntervalHours <= MAX_INTERVAL_HOURS
  }

  datatype Command =
    | SetEnabled(enabled: bool)
    | SetAutoRefresh(enabled: bool)
    | SetInterval(hours: nat)
    | Add(source: Source)
    | Remove(id: SourceId)
    | SetSourceEnabled(id: SourceId, enabled: bool)
    | SetSourceResponse(id: SourceId, response: Response)
    | Reorder(id: SourceId, direction: Direction)
    | SetLimit(id: SourceId, limit: Option<nat>)
    | AddEntries(inputs: seq<string>)
    | RemoveEntries(inputs: seq<string>)
    // the end of a refresh of the record as it was read earlier
    | Record(read: Source, outcome: Outcome, now: nat)

  function Noted(outcome: Outcome, now: nat): Source -> Source {
    match outcome
    case Refused => (s: Source) => Errored(s)
    case Kept => (s: Source) => Revalidated(s, now)
    case Replaced(v, p) => (s: Source) => Installed(s, v, p, now)
  }

  function HasOtherId(id: SourceId): Source -> bool {
    (s: Source) => s.id != id
  }

  function After(c: Command, s: AdBlockState): AdBlockState {
    match c
    case SetEnabled(enabled) => s.(enabled := enabled)
    case SetAutoRefresh(enabled) => s.(autoRefreshEnabled := enabled)
    case SetInterval(hours) => s.(refreshIntervalHours :=
        if hours > MAX_INTERVAL_HOURS then MAX_INTERVAL_HOURS else hours)
    case Add(source) => s.(sources := s.sources + [source])
    case Remove(id) => s.(sources := Filter(HasOtherId(id), s.sources))
    case SetSourceEnabled(id, enabled) => s.(sources := Changed(s.sources, id, (x: Source) => x.(enabled := enabled)))
    case SetSourceResponse(id, response) =>
        s.(sources := Changed(s.sources, id, (x: Source) => x.(response := response)))
    case Reorder(id, direction) => s.(sources := Reordered(s.sources, id, direction))
    case SetLimit(id, limit) =>
        if LimitAllowed(limit) then s.(sources := Changed(s.sources, id, WithLimit(limit))) else s
    case AddEntries(inputs) => s.(whitelist := WithEntries(s.whitelist, AcceptedOf(inputs)))
    case RemoveEntries(inputs) => s.(whitelist := WithoutEntries(s.whitelist, TargetsOf(inputs)))
    case Record(read, outcome, now) => s.(sources := Changed(s.sources, read.id, Noted(outcome, now)))
  }

  /** New sources are empty and have a new id; a refresh was judged against a record that was valid
      when it was read. */
  ghost predicate Possible(isIp: string -> bool, c: Command, s: AdBlockState) {
    match c
    case Add(source) =>
      (forall x :: x in s.sources ==> x.id != source.id) && source.ruleCount == 0 && source.rulesLimitOverride == None
    case Record(read, Replaced(v, p), _) => ValidSource(read) && Judge(isIp, read, v) == Some(p)
    case _ => true
  }

  lemma {:induction false} AcceptedAreCanonical(inputs: seq<string>)
    ensures forall w :: w in AcceptedOf(inputs) ==> ValidateDomain(w) == Some(w)
  {
    if inputs != [] {
      AcceptedAreCanonical(inputs[..|inputs| - 1]);
      if ValidateDomain(inputs[|inputs| - 1]).Some? {
        ValidatorIdempotent(inputs[|inputs| - 1]);
      }
    }
  }

  lemma {:induction false} EntriesStayValid(whitelist: seq<string>, entries: seq<string>)
    requires ValidWhitelist(whitelist) && forall w :: w in entries ==> ValidateDomain(w) == Some(w)
    ensures ValidWhitelist(WithEntries(whitelist, entries))
  {
    if entries != [] {
      EntriesStayValid(whitelist, entries[..|entries| - 1]);
      assert entries[|entries| - 1] in entries;
    }
  }

  lemma {:induction false} FilterKeepsNoDuplicates<T(!new)>(keep: T -> bool, s: seq<T>)
    requires NoDuplicates(s)
    ensures NoDuplicates(Filter(keep, s))
  {
    if s != [] {
      FilterKeepsNoDuplicates(keep, s[1..]);
      assert forall i :: 0 <= i < |s[1..]| ==> s[1..][i] != s[0];
      assert s[0] !in Filter(keep, s[1..]);
    }
  }

  lemma {:induction false} RemovalStaysValid(whitelist: seq<string>, targets: seq<string>)
    requires ValidWhitelist(whitelist)
    ensures ValidWhitelist(WithoutEntries(whitelist, targets))
  {
    if targets != [] {
      RemovalStaysValid(whitelist, targets[..|targets| - 1]);
      FilterKeepsNoDuplicates(Not(targets[|targets| - 1]), WithoutEntries(whitelist, targets[..|targets| - 1]));
    }
  }

  /** What a whitelist batch leaves: exactly the old and the accepted entries, or exactly the old
      ones that are not targets. */
  lemma {:induction false} WhitelistBatches(whitelist: seq<string>, batch: seq<string>)
    ensures forall d :: d in WithEntries(whitelist, batch) <==> d in whitelist || d in batch
    ensures forall d :: d in WithoutEntries(whitelist, batch) <==> d in whitelist && d !in batch
  {
    if batch != [] {
      var front, last := batch[..|batch| - 1], batch[|batch| - 1];
      WhitelistBatches(whitelist, front);
      assert batch == front + [last];
    }
  }

  lemma {:induction false} IdsDistinctAfterRemoval(sources: seq<Source>, id: SourceId)
    requires DistinctIds(sources)
    ensures DistinctIds(Filter(HasOtherId(id), sources))
    ensures forall i :: 0 <= i < |Filter(HasOtherId(id), sources)| ==> Filter(HasOtherId(id), sources)[i] in sources
  {
    if sources != [] {
      IdsDistinctAfterRemoval(sources[1..], id);
      var kept := Filter(HasOtherId(id), sources[1..]);
      forall j | 0 <= j < |kept| ensures kept[j].id != sources[0].id {
        var n :| 0 <= n < |sources[1..]| && sources[1..][n] == kept[j];
      }
    }
  }

  lemma {:induction false} ChangedStaysValid(sources: seq<Source>, id: SourceId, change: Source -> Source)
    requires DistinctIds(sources) && forall i :: 0 <= i < |sources| ==> ValidSource(sources[i])
    requires forall s: Source :: change(s).id == s.id && (ValidSource(s) ==> ValidSource(change(s)))
    ensures DistinctIds(Changed(sources, id, change))
    ensures forall i :: 0 <= i < |Changed(sources, id, change)| ==> ValidSource(Changed(sources, id, change)[i])
  {
  }

  lemma {:induction false} StepKeepsValid(isIp: string -> bool, c: Command, s: AdBlockState)
    requires ValidState(s) && Possible(isIp, c, s)
    ensures ValidState(After(c, s))
  {
    match c
    case Remove(id) => IdsDistinctAfterRemoval(s.sources, id);
    case AddEntries(inputs) =>
      AcceptedAreCanonical(inputs);
      EntriesStayValid(s.whitelist, AcceptedOf(inputs));
    case RemoveEntries(inputs) => RemovalStaysValid(s.whitelist, TargetsOf(inputs));
    case SetSourceEnabled(id, enabled) => ChangedStaysValid(s.sources, id, (x: Source) => x.(enabled := enabled));
    case SetSourceResponse(id, response) => ChangedStaysValid(s.sources, id, (x: Source) => x.(response := response));
    case SetLimit(id, limit) =>
      if LimitAllowed(limit) {
        ChangedStaysValid(s.sources, id, WithLimit(limit));
      }
    case Record(read, outcome, now) => ChangedStaysValid(s.sources, read.id, Noted(outcome, now));
    case _ =>
  }

  ghost predicate StepAt(isIp: string -> bool, run: seq<AdBlockState>, commands: seq<Command>, k: int) {
    0 <= k < |commands| && k + 1 < |run| && Possible(isIp, commands[k], run[k])
        && run[k + 1] == After(commands[k], run[k])
  }

  ghost predicate Run(isIp: string -> bool, run: seq<AdBlockState>, commands: seq<Command>) {
    |run| == |commands| + 1 && ValidState(run[0]) && forall k :: 0 <= k < |commands| ==> StepAt(isIp, run, commands, k)
  }

  lemma {:induction false} RunKeepsValid(isIp: string -> bool, run: seq<AdBlockState>, commands: seq<Command>, k: nat)
    requires Run(isIp, run, commands) && k < |run|
    ensures ValidState(run[k])
  {
    if k > 0 {
      RunKeepsValid(isIp, run, commands, k - 1);
      assert StepAt(isIp, run, commands, k - 1);
      StepKeepsValid(isIp, commands[k - 1], run[k - 1]);
    }
  }

  // -------------------------------------------------------------------------
  // Reordering is presentation only
  // -------------------------------------------------------------------------

  lemma {:induction false} SwapPermutes<T>(s: seq<T>, i: nat, j: nat)
    requires i < |s| && j < |s|
    ensures Permuted(s, Swapped(s, i, j))
  {
  }

  /** Any number of reorder commands. */
  function AfterMoves(sources: seq<Source>, moves: seq<(SourceId, Direction)>): seq<Source> {
    if moves == [] then sources
    else
      var last := moves[|moves| - 1];
      Reordered(AfterMoves(sources, moves[..|moves| - 1]), last.0, last.1)
  }

  lemma {:induction false} MovesPermute(sources: seq<Source>, moves: seq<(SourceId, Direction)>)
    ensures Permuted(sources, AfterMoves(sources, moves))
  {
    if moves != [] {
      var before, last := AfterMoves(sources, moves[..|moves| - 1]), moves[|moves| - 1];
      MovesPermute(sources, moves[..|moves| - 1]);
      var pos := IndexOf(before, last.0);
      if pos.Some? {
        SwapPermutes(before, pos.value, MoveTarget(|before|, pos.value, last.1));
      }
    }
  }

  /** After any reordering, a reload computes the same fingerprint, the same inputs and the same
      rules. */
  lemma {:induction false} MovesKeepRules(env: Env, s: AdBlockState, disk: Disk, moves: seq<(SourceId, Direction)>)
    requires DistinctIds(s.sources)
    ensures var t := s.(sources := AfterMoves(s.sources, moves));
      && FingerprintOf(env, ReadingOf(s, disk)) == FingerprintOf(env, ReadingOf(t, disk))
      && InputsOf(env, ReadingOf(s, disk)) == InputsOf(env, ReadingOf(t, disk))
      && RebuildOf(env, ReadingOf(s, disk)) == RebuildOf(env, ReadingOf(t, disk))
  {
    MovesPermute(s.sources, moves);
    ReadingOrderIrrelevant(env, s, s.(sources := AfterMoves(s.sources, moves)), disk);
  }

  function Opposite(direction: Direction): Direction {
    if direction == Up then Down else Up
  }

  /** A move that is not stopped by an end of the list is undone by the opposite move. */
  lemma {:induction false} MoveUndone(sources: seq<Source>, id: SourceId, direction: Direction)
    requires DistinctIds(sources) && Moves(sources, id, direction)
    ensures Reordered(Reordered(sources, id, direction), id, Opposite(direction)) == sources
  {
    var pos := IndexOf(sources, id).value;
    var target := MoveTarget(|sources|, pos, direction);
    var moved := Swapped(sources, pos, target);
    assert moved[target].id == id;
    assert DistinctIds(moved);
    IndexIsUnique(moved, target);
  }

  lemma {:induction false} IndexIsUnique(sources: seq<Source>, i: nat)
    requires DistinctIds(sources) && i < |sources|
    ensures IndexOf(sources, sources[i].id) == Some(i)
  {
    assert sources[i] in sources;
  }
}
