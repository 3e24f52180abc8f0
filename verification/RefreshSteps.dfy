/** Refreshes of any sources, interleaved access by access with each other and with everything
    that touches records or cache files outside the per-source gates. */
module RefreshSteps {
  import opened Base
  import opened AdBlockModel
  import opened Blocklist
  import opened Refresh

  /** From `Reading` to `Recording` a refresh holds its source's gate. `source` is the record as
      the refresh read it. */
  datatype Phase =
    | Queued
    | Reading
    | Requesting(source: Source)
    | Answered(source: Source, reply: Reply)
    | Rerequesting(source: Source)
    | Checking(source: Source, version: Version)
    | Writing(source: Source, version: Version, parse: Parse)
    | Recording(outcome: Outcome)
    | Done

  datatype Task = Task(id: SourceId, force: bool, phase: Phase)

  datatype Published = Published(version: Version, modifiedAt: nat)

  /** `now` counts seconds. The last three fields are history: the version a record describes,
      everything ever published, and the ids handed out so far. */
  datatype World = World(
    now: nat,
    upstream: map<SourceId, Published>,
    records: map<SourceId, Source>,
    disk: map<SourceId, string>,
    gates: map<SourceId, nat>,
    tasks: seq<Task>,
    accepted: map<SourceId, Version>,
    published: set<(SourceId, Version)>,
    used: set<SourceId>)

  datatype Action =
    // one access of refresh i: what the server sends, and whether the disk takes a write
    | Advance(i: nat, reply: Reply, writable: bool)
    // the rest of the program, and the world outside
    | Start(id: SourceId, force: bool)
    | Add(id: SourceId, source: Source)
    | Purge(id: SourceId)
    | SetEnabled(id: SourceId, enabled: bool)
    | Configure(id: SourceId, source: Source)
    | LoseFile(id: SourceId)
    | Publish(id: SourceId, body: Option<string>, etag: Option<string>)
    | Tick

  predicate HoldsGate(p: Phase) {
    !p.Queued? && !p.Done?
  }

  /** The cache has been written and the record has not caught up yet. */
  predicate Between(p: Phase) {
    p.Recording? && p.outcome.Replaced?
  }

  /** An access of refresh `i` is nothing to the other refreshes, nor to the world outside. */
  predicate OnlyTask(w: World, w': World, i: nat)
    requires i < |w.tasks|
  {
    && |w'.tasks| == |w.tasks| && w'.tasks == w.tasks[i := w.tasks[i].(phase := w'.tasks[i].phase)]
    && w'.now == w.now && w'.upstream == w.upstream && w'.published == w.published && w'.used == w.used
  }

  function Put(w: World, i: nat, p: Phase): (w': World)
    requires i < |w.tasks|
    ensures OnlyTask(w, w', i) && w'.tasks[i].phase == p
  {
    w.(tasks := w.tasks[i := w.tasks[i].(phase := p)])
  }

  function Drop<V>(m: map<SourceId, V>, id: SourceId): map<SourceId, V> {
    map k | k in m && k != id :: m[k]
  }

  // -------------------------------------------------------------------------
  // Steps of one refresh
  // -------------------------------------------------------------------------

  predicate Exchanging(p: Phase) {
    p.Requesting? || p.Answered? || p.Rerequesting? || p.Checking?
  }

  /** The exchange with the server: where it leads. A 304 counts only if the cache file is there;
      otherwise the body is fetched after all. */
  function Exchanged(isIp: string -> bool, w: World, id: SourceId, p: Phase, reply: Reply): Phase
    requires Exchanging(p)
  {
    match p
    case Requesting(s) => Answered(s, reply)
    case Answered(s, r) =>
      (match r
       case Failed => Recording(Refused)
       case NotModified => if id in w.disk then Recording(Kept) else Rerequesting(s)
       case Fresh(v) => Checking(s, v))
    case Rerequesting(s) =>
      (match reply
       case Fresh(v) => Checking(s, v)
       case _ => Recording(Refused))
    case Checking(s, v) =>
      (match Judge(isIp, s, v)
       case None => Recording(Refused)
       case Some(p) => Writing(s, v, p))
  }

  /** Only a write that succeeds touches the cache, and only the bookkeeping touches records. */
  predicate Effects(w: World, w': World, i: nat)
    requires i < |w.tasks|
  {
    && OnlyTask(w, w', i)
    && (w'.disk == w.disk || (w.tasks[i].phase.Writing? && Between(w'.tasks[i].phase)))
    && (w.tasks[i].phase.Recording? || (w'.records == w.records && w'.accepted == w.accepted))
    && (w.tasks[i].phase.Recording? ==> w'.tasks[i].phase.Done?)
  }

  function Acquired(w: World, i: nat): (w': World)
    requires i < |w.tasks| && w.tasks[i].phase.Queued?
    ensures Effects(w, w', i)
  {
    if w.tasks[i].id in w.gates then w else Put(w, i, Reading).(gates := w.gates[w.tasks[i].id := i])
  }

  /** A source that is gone gives the gate back. */
  function LookedUp(w: World, i: nat): (w': World)
    requires i < |w.tasks| && w.tasks[i].phase.Reading?
    ensures Effects(w, w', i)
  {
    var id := w.tasks[i].id;
    if id in w.records then Put(w, i, Requesting(w.records[id]))
    else Put(w, i, Done).(gates := Drop(w.gates, id))
  }

  function Written(w: World, i: nat, writable: bool): (w': World)
    requires i < |w.tasks| && w.tasks[i].phase.Writing?
    ensures Effects(w, w', i)
  {
    var p := w.tasks[i].phase;
    if writable
    then
        Put(w, i, Recording(Replaced(p.version, p.parse)))
          .(disk := w.disk[w.tasks[i].id := Canon(p.parse.domains)])
    else Put(w, i, Recording(Refused))
  }

  /** Bookkeeping under the state lock, then the gate is released. */
  function Recorded(w: World, i: nat, o: Outcome): (w': World)
    requires i < |w.tasks|
    ensures OnlyTask(w, w', i) && w'.tasks[i].phase == Done && w'.disk == w.disk
  {
    var id := w.tasks[i].id;
    var released := Put(w, i, Done).(gates := Drop(w.gates, id));
    if id !in w.records then released
    else match o
         case Refused => released.(records := w.records[id := Errored(w.records[id])])
         case Kept => released.(records := w.records[id := Revalidated(w.records[id], w.now)])
         case Replaced(v, p) =>
           released.(records := w.records[id := Installed(w.records[id], v, p, w.now)],
                     accepted := w.accepted[id := v])
  }

  /** The next access of refresh `i`, in the order of the code. */
  function Advanced(isIp: string -> bool, w: World, i: nat, reply: Reply, writable: bool): (w': World)
    requires i < |w.tasks|
    ensures Effects(w, w', i)
  {
    var p := w.tasks[i].phase;
    match p
    case Queued => Acquired(w, i)
    case Reading => LookedUp(w, i)
    case Writing(_, _, _) => Written(w, i, writable)
    case Recording(o) => Recorded(w, i, o)
    case Done => w
    case _ => Put(w, i, Exchanged(isIp, w, w.tasks[i].id, p, reply))
  }

  // -------------------------------------------------------------------------
  // All actions
  // -------------------------------------------------------------------------

  /** Other commands leave alone what a refresh recorded, and a source's format never changes. */
  ghost predicate SameRecord(s: Source, t: Source) {
    s.format == t.format && s.etag == t.etag && s.ruleCount == t.ruleCount && s.lastFetchedAt == t.lastFetchedAt
  }

  /** A body in a reply is the current one; a 304 may come at any time, honest or not. */
  ghost predicate Possible(w: World, id: SourceId, reply: Reply) {
    reply.Fresh? ==> id in w.upstream && reply.version == w.upstream[id].version
  }

  ghost predicate Enabled(w: World, a: Action) {
    match a
    case Advance(i, reply, _) => i < |w.tasks| && Possible(w, w.tasks[i].id, reply)
    case Start(id, _) => id in w.used
    case Add(id, s) => id !in w.used && s.etag == None && s.ruleCount == 0 && s.lastFetchedAt == None
    case SetEnabled(id, _) => id in w.records
    case Configure(id, s) => id in w.records && SameRecord(w.records[id], s)
    case _ => true
  }

  function NextRevision(w: World, id: SourceId): nat {
    if id in w.upstream then w.upstream[id].version.revision + 1 else 0
  }

  ghost function Step(isIp: string -> bool, w: World, a: Action): World
    requires Enabled(w, a)
  {
    match a
    case Advance(i, reply, writable) => Advanced(isIp, w, i, reply, writable)
    case Start(id, force) => w.(tasks := w.tasks + [Task(id, force, Queued)])
    case Add(id, s) => w.(records := w.records[id := s], used := w.used + {id})
    case Purge(id) => w.(records := Drop(w.records, id), disk := Drop(w.disk, id))
    case SetEnabled(id, enabled) =>
      var s := w.records[id];
      w.(records := w.records[id := s.(enabled := enabled)],
         disk := if s.enabled && !enabled then Drop(w.disk, id) else w.disk)
    case Configure(id, s) => w.(records := w.records[id := s])
    case LoseFile(id) => w.(disk := Drop(w.disk, id))
    case Publish(id, body, etag) =>
      var v := Version(NextRevision(w, id), body, etag);
      w.(upstream := w.upstream[id := Published(v, w.now)], published := w.published + {(id, v)})
    case Tick => w.(now := w.now + 1)
  }

  ghost predicate Initial(w: World) {
    w.upstream == map[] && w.records == map[] && w.disk == map[] && w.gates == map[] && w.tasks == []
    && w.accepted == map[] && w.published == {} && w.used == {}
  }

  ghost predicate StepAt(isIp: string -> bool, run: seq<World>, actions: seq<Action>, k: nat) {
    k < |actions| && k + 1 < |run| && Enabled(run[k], actions[k]) && run[k + 1] == Step(isIp, run[k], actions[k])
  }

  ghost predicate Run(isIp: string -> bool, run: seq<World>, actions: seq<Action>) {
    |run| == |actions| + 1 && Initial(run[0]) && forall k :: 0 <= k < |actions| ==> StepAt(isIp, run, actions, k)
  }

  // -------------------------------------------------------------------------
  // Consistency
  // -------------------------------------------------------------------------

  /** No cache file, or one that is the canonical text of the version the record describes. */
  ghost predicate Consistent(isIp: string -> bool, w: World, id: SourceId) {
    id in w.records && id in w.disk ==>
      id in w.accepted && Describes(isIp, w.records[id], w.accepted[id], w.disk[id])
  }

  /** What a refresh inside its gate knows. */
  ghost predicate PhaseInv(isIp: string -> bool, w: World, id: SourceId, p: Phase) {
    match p
    case Requesting(s) => id in w.records ==> SameRecord(s, w.records[id])
    case Answered(s, _) => id in w.records ==> SameRecord(s, w.records[id])
    case Rerequesting(s) => id in w.records ==> SameRecord(s, w.records[id])
    case Checking(s, _) => id in w.records ==> SameRecord(s, w.records[id])
    case Writing(s, v, p) =>
      (id in w.records ==> SameRecord(s, w.records[id])) && v.body.Some?
          && p == ParseBlocklist(isIp, s.format, v.body.value)
    case Recording(Replaced(v, p)) =>
      && (id in w.records ==> v.body.Some? && p == ParseBlocklist(isIp, w.records[id].format, v.body.value))
      && (id in w.disk ==> w.disk[id] == Canon(p.domains))
    case _ => true
  }

  ghost predicate TaskInv(isIp: string -> bool, w: World, i: nat)
    requires i < |w.tasks|
  {
    var t := w.tasks[i];
    && t.id in w.used
    && (HoldsGate(t.phase) <==> t.id in w.gates && w.gates[t.id] == i)
    && PhaseInv(isIp, w, t.id, t.phase)
  }

  /** Cache and record of `id` may disagree only while the gate's holder has written the one and
      not yet the other. */
  ghost predicate SourceInv(isIp: string -> bool, w: World, id: SourceId) {
    && (id in w.gates ==> w.gates[id] < |w.tasks| && w.tasks[w.gates[id]].id == id)
    && (!(id in w.gates && Between(w.tasks[w.gates[id]].phase)) ==> Consistent(isIp, w, id))
    && (id in w.records || id in w.disk ==> id in w.used)
  }

  ghost predicate Inv(isIp: string -> bool, w: World) {
    && (forall i :: 0 <= i < |w.tasks| ==> TaskInv(isIp, w, i))
    && (forall id :: SourceInv(isIp, w, id))
  }

  ghost predicate SameIn<V(!new)>(m: map<SourceId, V>, n: map<SourceId, V>, id: SourceId) {
    (id in m <==> id in n) && (id in m ==> m[id] == n[id])
  }

  /** Nothing that concerns source `id` differs between two worlds, tasks aside. */
  ghost predicate SameAt(w: World, w': World, id: SourceId) {
    && SameIn(w.records, w'.records, id) && SameIn(w.disk, w'.disk, id)
    && SameIn(w.gates, w'.gates, id) && SameIn(w.accepted, w'.accepted, id)
  }

  /** A step of refresh `i` that only concerns its own source needs checking only there. */
  lemma {:induction false} LocalStepKeeps(isIp: string -> bool, w: World, w': World, i: nat)
    requires Inv(isIp, w) && i < |w.tasks| && w'.used == w.used
    requires |w'.tasks| == |w.tasks| && w'.tasks == w.tasks[i := w.tasks[i].(phase := w'.tasks[i].phase)]
    requires forall k :: k != w.tasks[i].id ==> SameAt(w, w', k)
    requires w.tasks[i].id in w.gates ==> w.gates[w.tasks[i].id] == i
    requires w.tasks[i].id in w'.gates ==> w'.gates[w.tasks[i].id] == i
    requires TaskInv(isIp, w', i) && SourceInv(isIp, w', w.tasks[i].id)
    ensures Inv(isIp, w')
  {
    var id := w.tasks[i].id;
    forall j | 0 <= j < |w'.tasks| ensures TaskInv(isIp, w', j) {
      assert TaskInv(isIp, w, j);
      if w.tasks[j].id != id {
        assert SameAt(w, w', w.tasks[j].id);
      }
    }
    forall k ensures SourceInv(isIp, w', k) {
      assert SourceInv(isIp, w, k);
      if k != id {
        assert SameAt(w, w', k);
        assert k in w.gates ==> w.gates[k] != i;
      }
    }
  }

  /** Moving to a phase whose knowledge holds, with the gate in hand and no file touched. */
  lemma {:induction false} PhaseChangeKeeps(isIp: string -> bool, w: World, i: nat, p: Phase)
    requires Inv(isIp, w) && i < |w.tasks|
    requires HoldsGate(w.tasks[i].phase) && HoldsGate(p) && !Between(w.tasks[i].phase) && !Between(p)
    requires PhaseInv(isIp, w, w.tasks[i].id, p)
    ensures Inv(isIp, Put(w, i, p))
  {
    var w' := Put(w, i, p);
    assert TaskInv(isIp, w, i) && SourceInv(isIp, w, w.tasks[i].id);
    LocalStepKeeps(isIp, w, w', i);
  }

  lemma {:induction false} AcquireKeeps(isIp: string -> bool, w: World, i: nat)
    requires Inv(isIp, w) && i < |w.tasks| && w.tasks[i].phase.Queued?
    ensures Inv(isIp, Advanced(isIp, w, i, Failed, false))
  {
    var w' := Advanced(isIp, w, i, Failed, false);
    assert TaskInv(isIp, w, i) && SourceInv(isIp, w, w.tasks[i].id);
    if w.tasks[i].id !in w.gates {
      LocalStepKeeps(isIp, w, w', i);
    }
  }

  /** A refresh whose source is gone gives the gate back. */
  lemma {:induction false} AbandonKeeps(isIp: string -> bool, w: World, i: nat)
    requires Inv(isIp, w) && i < |w.tasks| && w.tasks[i].phase.Reading?
    ensures Inv(isIp, Put(w, i, Done).(gates := Drop(w.gates, w.tasks[i].id)))
  {
    var w' := Put(w, i, Done).(gates := Drop(w.gates, w.tasks[i].id));
    assert TaskInv(isIp, w, i) && SourceInv(isIp, w, w.tasks[i].id);
    LocalStepKeeps(isIp, w, w', i);
  }

  lemma {:induction false} WriteKeeps(isIp: string -> bool, w: World, i: nat)
    requires Inv(isIp, w) && i < |w.tasks| && w.tasks[i].phase.Writing?
    ensures Inv(isIp, Advanced(isIp, w, i, Failed, true))
  {
    var w' := Advanced(isIp, w, i, Failed, true);
    assert TaskInv(isIp, w, i) && SourceInv(isIp, w, w.tasks[i].id);
    LocalStepKeeps(isIp, w, w', i);
  }

  /** The record catches up with the cache, whatever the outcome. */
  lemma {:induction false} RecordIsConsistent(isIp: string -> bool, w: World, i: nat)
    requires i < |w.tasks| && w.tasks[i].phase.Recording?
    requires PhaseInv(isIp, w, w.tasks[i].id, w.tasks[i].phase)
    requires Between(w.tasks[i].phase) || Consistent(isIp, w, w.tasks[i].id)
    ensures Consistent(isIp, Recorded(w, i, w.tasks[i].phase.outcome), w.tasks[i].id)
  {
  }

  lemma {:induction false} RecordKeeps(isIp: string -> bool, w: World, i: nat)
    requires Inv(isIp, w) && i < |w.tasks| && w.tasks[i].phase.Recording?
    ensures Inv(isIp, Recorded(w, i, w.tasks[i].phase.outcome))
  {
    var w' := Recorded(w, i, w.tasks[i].phase.outcome);
    assert TaskInv(isIp, w, i) && SourceInv(isIp, w, w.tasks[i].id);
    RecordIsConsistent(isIp, w, i);
    RecordedFrame(w, i, w.tasks[i].phase.outcome);
    LocalStepKeeps(isIp, w, w', i);
  }

  /** Recording touches one record, one gate and one task. */
  lemma {:induction false} RecordedFrame(w: World, i: nat, o: Outcome)
    requires i < |w.tasks|
    ensures var w' := Recorded(w, i, o);
      && w'.tasks == w.tasks[i := w.tasks[i].(phase := Done)] && w'.used == w.used && w'.disk == w.disk
      && w.tasks[i].id !in w'.gates && w'.records.Keys == w.records.Keys
      && forall k :: k != w.tasks[i].id ==> SameAt(w, w', k)
  {
  }

  lemma {:induction false} AdvanceKeeps(isIp: string -> bool, w: World, i: nat, reply: Reply, writable: bool)
    requires Inv(isIp, w) && i < |w.tasks|
    ensures Inv(isIp, Advanced(isIp, w, i, reply, writable))
  {
    var t := w.tasks[i];
    assert TaskInv(isIp, w, i);
    match t.phase
    case Queued => AcquireKeeps(isIp, w, i);
    case Reading =>
      if t.id in w.records {
        PhaseChangeKeeps(isIp, w, i, Requesting(w.records[t.id]));
      } else {
        AbandonKeeps(isIp, w, i);
      }
    case Writing(_, _, _) =>
      if writable {
        WriteKeeps(isIp, w, i);
      } else {
        PhaseChangeKeeps(isIp, w, i, Recording(Refused));
      }
    case Recording(_) => RecordKeeps(isIp, w, i);
    case Done =>
    case _ => ExchangeKeeps(isIp, w, i, reply);
  }

  /** The exchange with the server and the checks on the body. */
  lemma {:induction false} ExchangeKeeps(isIp: string -> bool, w: World, i: nat, reply: Reply)
    requires Inv(isIp, w) && i < |w.tasks|
    requires Exchanging(w.tasks[i].phase)
    ensures Inv(isIp, Put(w, i, Exchanged(isIp, w, w.tasks[i].id, w.tasks[i].phase, reply)))
  {
    assert TaskInv(isIp, w, i);
    PhaseChangeKeeps(isIp, w, i, Exchanged(isIp, w, w.tasks[i].id, w.tasks[i].phase, reply));
  }

  lemma {:induction false} OutsideKeepsTask(isIp: string -> bool, w: World, a: Action, j: nat)
    requires Inv(isIp, w) && Enabled(w, a) && !a.Advance? && j < |Step(isIp, w, a).tasks|
    ensures TaskInv(isIp, Step(isIp, w, a), j)
  {
    assert j < |w.tasks| ==> TaskInv(isIp, w, j);
    assert SourceInv(isIp, w, Step(isIp, w, a).tasks[j].id);
  }

  /** Everything outside the gates may only drop files and change unrelated fields. */
  lemma {:induction false} OutsideKeeps(isIp: string -> bool, w: World, a: Action)
    requires Inv(isIp, w) && Enabled(w, a) && !a.Advance?
    ensures Inv(isIp, Step(isIp, w, a))
  {
    var w' := Step(isIp, w, a);
    forall j | 0 <= j < |w'.tasks| ensures TaskInv(isIp, w', j) {
      OutsideKeepsTask(isIp, w, a, j);
    }
    forall k ensures SourceInv(isIp, w', k) {
      assert SourceInv(isIp, w, k);
    }
  }

  lemma {:induction false} StepKeeps(isIp: string -> bool, w: World, a: Action)
    requires Inv(isIp, w) && Enabled(w, a)
    ensures Inv(isIp, Step(isIp, w, a))
  {
    match a
    case Advance(i, reply, writable) => AdvanceKeeps(isIp, w, i, reply, writable);
    case _ => OutsideKeeps(isIp, w, a);
  }

  lemma {:induction false} RunKeepsInvariant(isIp: string -> bool, run: seq<World>, actions: seq<Action>, k: nat)
    requires Run(isIp, run, actions) && k < |run|
    ensures Inv(isIp, run[k])
  {
    if k > 0 {
      RunKeepsInvariant(isIp, run, actions, k - 1);
      assert StepAt(isIp, run, actions, k - 1);
      StepKeeps(isIp, run[k - 1], actions[k - 1]);
    }
  }

  /** Whenever no refresh holds a source's gate, its cache file is missing or is the canonical
      text of the very version whose etag and rule count are on record. */
  lemma {:induction false} CacheMatchesRecord(isIp: string -> bool, run: seq<World>, actions: seq<Action>, k: nat,
      id: SourceId)
    requires Run(isIp, run, actions) && k < |run|
    requires id in run[k].records && id !in run[k].gates && id in run[k].disk
    ensures id in run[k].accepted
    ensures Describes(isIp, run[k].records[id], run[k].accepted[id], run[k].disk[id])
  {
    RunKeepsInvariant(isIp, run, actions, k);
    assert SourceInv(isIp, run[k], id);
  }

  /** A gate has at most one holder. */
  lemma {:induction false} GateIsExclusive(isIp: string -> bool, run: seq<World>, actions: seq<Action>, k: nat,
      i: nat, j: nat)
    requires Run(isIp, run, actions) && k < |run| && i < |run[k].tasks| && j < |run[k].tasks|
    requires HoldsGate(run[k].tasks[i].phase) && HoldsGate(run[k].tasks[j].phase)
    requires run[k].tasks[i].id == run[k].tasks[j].id
    ensures i == j
  {
    RunKeepsInvariant(isIp, run, actions, k);
    assert TaskInv(isIp, run[k], i) && TaskInv(isIp, run[k], j);
  }

  // -------------------------------------------------------------------------
  // A failed refresh leaves no trace but its message
  // -------------------------------------------------------------------------

  /** Step `n` records that refresh `i` of source `id` found its list changed or unchanged. */
  ghost predicate Records(run: seq<World>, actions: seq<Action>, n: nat, i: nat, id: SourceId) {
    && n < |actions| && n < |run| && actions[n].Advance? && actions[n].i == i && i < |run[n].tasks|
    && run[n].tasks[i].id == id && id in run[n].records
    && run[n].tasks[i].phase.Recording? && !run[n].tasks[i].phase.outcome.Refused?
  }

  ghost predicate Installs(run: seq<World>, actions: seq<Action>, n: nat, i: nat, id: SourceId) {
    Records(run, actions, n, i, id) && run[n].tasks[i].phase.outcome.Replaced?
  }

  /** In any run, etag and rule count of a source that stays change only when a new list is
      recorded, and its date only when a refresh succeeds; a refused refresh leaves everything but
      the error message. */
  lemma {:induction false} RefusalKeepsRecord(isIp: string -> bool, run: seq<World>, actions: seq<Action>, k: nat,
      id: SourceId)
    requires Run(isIp, run, actions) && k < |actions| && id in run[k].records && id in run[k + 1].records
    ensures var s, s' := run[k].records[id], run[k + 1].records[id];
      && (s'.etag != s.etag || s'.ruleCount != s.ruleCount ==> exists i :: Installs(run, actions, k, i, id))
      && (s'.lastFetchedAt != s.lastFetchedAt ==> exists i :: Records(run, actions, k, i, id))
    ensures actions[k].Advance? && !(exists i :: Records(run, actions, k, i, id)) ==>
              SameButError(run[k].records[id], run[k + 1].records[id])
  {
    assert StepAt(isIp, run, actions, k);
    match actions[k]
    case Advance(i, reply, writable) =>
      AdvanceKeepsRecord(isIp, run[k], i, reply, writable, id);
      assert Installs(run, actions, k, i, id) || !Installs(run, actions, k, i, id);
      assert Records(run, actions, k, i, id) || !Records(run, actions, k, i, id);
    case Add(_, _) =>
      RunKeepsInvariant(isIp, run, actions, k);
      assert SourceInv(isIp, run[k], id);
    case _ =>
  }

  lemma {:induction false} AdvanceKeepsRecord(isIp: string -> bool, w: World, i: nat, reply: Reply, writable: bool,
      id: SourceId)
    requires i < |w.tasks| && id in w.records
    ensures var w' := Advanced(isIp, w, i, reply, writable);
      && id in w'.records
      && (if w.tasks[i].phase.Recording? && w.tasks[i].id == id then
            match w.tasks[i].phase.outcome
            case Refused => SameButError(w.records[id], w'.records[id])
            case Kept => w'.records[id] == Revalidated(w.records[id], w.now)
            case Replaced(v, p) => w'.records[id] == Installed(w.records[id], v, p, w.now)
          else w'.records[id] == w.records[id])
  {
  }

  /** An accepted 304 reached the refresh while the cache file was there. */
  lemma {:induction false} KeptSawTheFile(isIp: string -> bool, run: seq<World>, actions: seq<Action>, k: nat, i: nat)
    requires Run(isIp, run, actions) && k < |run| && i < |run[k].tasks|
    requires run[k].tasks[i].phase.Recording? && run[k].tasks[i].phase.outcome.Kept?
    ensures exists j: nat :: SeesTheFile(run, actions, j, i) && j < k
  {
    assert k > 0;
    assert StepAt(isIp, run, actions, k - 1);
    if i < |run[k - 1].tasks| && run[k - 1].tasks[i].phase == run[k].tasks[i].phase {
      KeptSawTheFile(isIp, run, actions, k - 1, i);
    } else {
      assert SeesTheFile(run, actions, k - 1, i) by { KeptStep(isIp, run[k - 1], actions[k - 1], i); }
    }
  }

  /** At step `j` refresh `i` finds the cache file of its source, with a 304 in hand. */
  ghost predicate SeesTheFile(run: seq<World>, actions: seq<Action>, j: nat, i: nat) {
    && j < |actions| && j < |run| && actions[j].Advance? && actions[j].i == i && i < |run[j].tasks|
    && run[j].tasks[i].phase.Answered? && run[j].tasks[i].phase.reply.NotModified? && run[j].tasks[i].id in run[j].disk
  }

  lemma {:induction false} KeptStep(isIp: string -> bool, w: World, a: Action, i: nat)
    requires Enabled(w, a) && i < |Step(isIp, w, a).tasks|
    requires var p' := Step(isIp, w, a).tasks[i].phase;
      p'.Recording? && p'.outcome.Kept? && !(i < |w.tasks| && w.tasks[i].phase == p')
    ensures i < |w.tasks| && a.Advance? && a.i == i
    ensures w.tasks[i].phase.Answered? && w.tasks[i].phase.reply.NotModified? && w.tasks[i].id in w.disk
  {
    match a
    case Advance(n, reply, writable) =>
      assert OnlyTask(w, Step(isIp, w, a), n);
      KeptExchange(isIp, w, n, reply, writable);
    case _ =>
  }

  lemma {:induction false} KeptExchange(isIp: string -> bool, w: World, i: nat, reply: Reply, writable: bool)
    requires i < |w.tasks|
    requires var p' := Advanced(isIp, w, i, reply, writable).tasks[i].phase;
      p'.Recording? && p'.outcome.Kept? && w.tasks[i].phase != p'
    ensures w.tasks[i].phase.Answered? && w.tasks[i].phase.reply.NotModified? && w.tasks[i].id in w.disk
  {
    match w.tasks[i].phase
    case Checking(s, v) => assert false;
    case _ =>
  }

  lemma {:induction false} PastWritingStays(isIp: string -> bool, run: seq<World>, actions: seq<Action>, j: nat,
      k: nat, i: nat)
    requires Run(isIp, run, actions) && j <= k < |run| && i < |run[j].tasks|
    requires Between(run[j].tasks[i].phase) || run[j].tasks[i].phase.Done?
    ensures i < |run[k].tasks| && (Between(run[k].tasks[i].phase) || run[k].tasks[i].phase.Done?)
  {
    if j < k {
      PastWritingStays(isIp, run, actions, j, k - 1, i);
      assert StepAt(isIp, run, actions, k - 1);
      match actions[k - 1]
      case Advance(n, reply, writable) => assert OnlyTask(run[k - 1], run[k], n);
      case _ =>
    }
  }

  /** Over its whole life, a refresh that ends up refused has changed no cache file and no
      record before it notes its error. */
  lemma {:induction false} FailedRefreshWritesNothing(isIp: string -> bool, run: seq<World>, actions: seq<Action>,
      k: nat, i: nat, j: nat)
    requires Run(isIp, run, actions) && j < k < |run|
    requires i < |run[k].tasks| && run[k].tasks[i].phase.Recording? && run[k].tasks[i].phase.outcome == Refused
    requires actions[j].Advance? && actions[j].i == i
    ensures run[j + 1].disk == run[j].disk && run[j + 1].records == run[j].records
  {
    assert StepAt(isIp, run, actions, j);
    if run[j + 1].disk != run[j].disk || run[j + 1].records != run[j].records {
      PastWritingStays(isIp, run, actions, j + 1, k, i);
      assert false;
    }
  }

  // -------------------------------------------------------------------------
  // How a refresh comes to its outcome
  // -------------------------------------------------------------------------

  /** At step `n` refresh `i` makes its next access, in phase `p`. */
  ghost predicate MovesFrom(run: seq<World>, actions: seq<Action>, n: nat, i: nat, p: Phase) {
    && n < |actions| && n < |run| && actions[n].Advance? && actions[n].i == i && i < |run[n].tasks|
    && run[n].tasks[i].phase == p
  }

  /** A phase that was not there before was brought about by the refresh itself. */
  lemma {:induction false} PhaseIsOwn(isIp: string -> bool, run: seq<World>, actions: seq<Action>, k: nat, i: nat)
    returns (p: Phase)
    requires Run(isIp, run, actions) && 0 < k < |run| && i < |run[k].tasks| && !run[k].tasks[i].phase.Queued?
    requires !(i < |run[k - 1].tasks| && run[k - 1].tasks[i].phase == run[k].tasks[i].phase)
    ensures MovesFrom(run, actions, k - 1, i, p) && run[k - 1].tasks[i].id == run[k].tasks[i].id
    ensures run[k] == Advanced(isIp, run[k - 1], i, actions[k - 1].reply, actions[k - 1].writable)
  {
    assert StepAt(isIp, run, actions, k - 1);
    match actions[k - 1]
    case Advance(n, reply, writable) =>
      assert OnlyTask(run[k - 1], run[k], n);
      p := run[k - 1].tasks[i].phase;
    case _ =>
  }

  /** The reply a refresh has in hand is the one it was sent to its first request. */
  lemma {:induction false} AnswerWasSent(isIp: string -> bool, run: seq<World>, actions: seq<Action>, k: nat, i: nat)
    returns (n: nat)
    requires Run(isIp, run, actions) && k < |run| && i < |run[k].tasks| && run[k].tasks[i].phase.Answered?
    ensures n < k && MovesFrom(run, actions, n, i, Requesting(run[k].tasks[i].phase.source))
    ensures actions[n].reply == run[k].tasks[i].phase.reply
  {
    if k > 0 && i < |run[k - 1].tasks| && run[k - 1].tasks[i].phase == run[k].tasks[i].phase {
      n := AnswerWasSent(isIp, run, actions, k - 1, i);
    } else {
      assert k > 0;
      var p := PhaseIsOwn(isIp, run, actions, k, i);
      n := k - 1;
      match p
      case Checking(s, v) => JudgeIff(isIp, s, v);
      case _ =>
    }
  }

  /** At step `n` something goes wrong for refresh `i`: its first request fails, its second one brings
      no body, its body is not acceptable, or the disk does not take the file. */
  ghost predicate GoesWrong(isIp: string -> bool, run: seq<World>, actions: seq<Action>, n: nat, i: nat) {
    && n < |actions| && n < |run| && i < |run[n].tasks|
    && var p := run[n].tasks[i].phase;
       MovesFrom(run, actions, n, i, p)
       && match p
          case Requesting(_) => actions[n].reply == Failed
          case Rerequesting(_) => !actions[n].reply.Fresh?
          case Checking(s, v) => !Acceptable(isIp, s, v)
          case Writing(_, _, _) => !actions[n].writable
          case _ => false
  }

  /** No refresh is refused without a cause. */
  lemma {:induction false} RefusedHadCause(isIp: string -> bool, run: seq<World>, actions: seq<Action>, k: nat, i: nat)
    returns (n: nat)
    requires Run(isIp, run, actions) && k < |run| && i < |run[k].tasks| && run[k].tasks[i].phase == Recording(Refused)
    ensures n < k && GoesWrong(isIp, run, actions, n, i)
  {
    if k > 0 && i < |run[k - 1].tasks| && run[k - 1].tasks[i].phase == run[k].tasks[i].phase {
      n := RefusedHadCause(isIp, run, actions, k - 1, i);
    } else {
      assert k > 0;
      var p := PhaseIsOwn(isIp, run, actions, k, i);
      n := k - 1;
      match p
      case Answered(_, _) => n := AnswerWasSent(isIp, run, actions, k - 1, i);
      case Checking(s, v) => JudgeIff(isIp, s, v);
      case _ =>
    }
  }

  /** A refresh asks again only after a 304 that came when the cache file was gone. */
  lemma {:induction false} AskedAgain(isIp: string -> bool, run: seq<World>, actions: seq<Action>, k: nat, i: nat)
    returns (n: nat)
    requires Run(isIp, run, actions) && k < |run| && i < |run[k].tasks| && run[k].tasks[i].phase.Rerequesting?
    ensures n < k && MovesFrom(run, actions, n, i, Answered(run[k].tasks[i].phase.source, NotModified))
    ensures run[n].tasks[i].id !in run[n].disk
  {
    if k > 0 && i < |run[k - 1].tasks| && run[k - 1].tasks[i].phase == run[k].tasks[i].phase {
      n := AskedAgain(isIp, run, actions, k - 1, i);
    } else {
      assert k > 0;
      var p := PhaseIsOwn(isIp, run, actions, k, i);
      n := k - 1;
      match p
      case Checking(s, v) => JudgeIff(isIp, s, v);
      case _ =>
    }
  }

  /** A body that is written, or has been, was found acceptable. */
  lemma {:induction false} WrittenIsAcceptable(isIp: string -> bool, run: seq<World>, actions: seq<Action>, k: nat,
      i: nat)
    returns (n: nat)
    requires Run(isIp, run, actions) && k < |run| && i < |run[k].tasks|
    requires run[k].tasks[i].phase.Writing? || Between(run[k].tasks[i].phase)
    ensures n < k && n < |run| && i < |run[n].tasks| && MovesFrom(run, actions, n, i, run[n].tasks[i].phase)
    ensures run[n].tasks[i].phase.Checking?
    ensures Acceptable(isIp, run[n].tasks[i].phase.source, run[n].tasks[i].phase.version)
    ensures var p, q := run[k].tasks[i].phase, run[n].tasks[i].phase;
      && (if p.Writing? then p.version else p.outcome.version) == q.version
      && (if p.Writing? then p.parse else p.outcome.parse)
           == ParseBlocklist(isIp, q.source.format, q.version.body.value)
  {
    if k > 0 && i < |run[k - 1].tasks| && run[k - 1].tasks[i].phase == run[k].tasks[i].phase {
      n := WrittenIsAcceptable(isIp, run, actions, k - 1, i);
    } else {
      assert k > 0;
      var p := PhaseIsOwn(isIp, run, actions, k, i);
      n := k - 1;
      match p
      case Checking(s, v) => JudgeIff(isIp, s, v);
      case Writing(_, _, _) => n := WrittenIsAcceptable(isIp, run, actions, k - 1, i);
      case _ =>
    }
  }

  /** Every refresh that is done has recorded its outcome, or its source was gone. */
  lemma {:induction false} DoneHadEnd(isIp: string -> bool, run: seq<World>, actions: seq<Action>, k: nat, i: nat)
    returns (n: nat)
    requires Run(isIp, run, actions) && k < |run| && i < |run[k].tasks| && run[k].tasks[i].phase.Done?
    ensures n < k && n < |run| && i < |run[n].tasks| && MovesFrom(run, actions, n, i, run[n].tasks[i].phase)
    ensures run[n].tasks[i].phase.Recording?
         || (run[n].tasks[i].phase.Reading? && run[n].tasks[i].id !in run[n].records)
  {
    if k > 0 && i < |run[k - 1].tasks| && run[k - 1].tasks[i].phase == run[k].tasks[i].phase {
      n := DoneHadEnd(isIp, run, actions, k - 1, i);
    } else {
      assert k > 0;
      var p := PhaseIsOwn(isIp, run, actions, k, i);
      n := k - 1;
      match p
      case Checking(s, v) => JudgeIff(isIp, s, v);
      case _ =>
    }
  }

  /** What the bookkeeping leaves in the record, if the source is still there, and that the gate is
      free again. */
  lemma {:induction false} OutcomeIsNoted(isIp: string -> bool, run: seq<World>, actions: seq<Action>, k: nat, i: nat,
      o: Outcome)
    requires Run(isIp, run, actions) && MovesFrom(run, actions, k, i, Recording(o))
    requires run[k].tasks[i].id in run[k].records
    ensures k + 1 < |run| && i < |run[k + 1].tasks|
    ensures run[k + 1].tasks[i].phase.Done? && run[k].tasks[i].id !in run[k + 1].gates
    ensures run[k].tasks[i].id in run[k + 1].records
    ensures var s, s' := run[k].records[run[k].tasks[i].id], run[k + 1].records[run[k].tasks[i].id];
      match o
      case Refused => s' == s.(lastError := Some(FAILURE))
      case Kept => s' == s.(lastError := None, lastFetchedAt := Some(run[k].now))
      case Replaced(v, p) =>
        s' == s.(etag := v.etag, ruleCount := |p.domains|, lastFetchedAt := Some(run[k].now),
                 lastError := if p.errors >= 10 && p.errors > |p.domains| / 20 then Some(WARNING) else None)
  {
    assert StepAt(isIp, run, actions, k);
    RecordedFrame(run[k], i, o);
  }

  /** How many accesses are left to a refresh at most. */
  function AccessesLeft(p: Phase): nat {
    match p
    case Queued => 8
    case Reading => 7
    case Requesting(_) => 6
    case Answered(_, _) => 5
    case Rerequesting(_) => 4
    case Checking(_, _) => 3
    case Writing(_, _, _) => 2
    case Recording(_) => 1
    case Done => 0
  }

  /** The accesses of refresh `i` among the steps from `j` to before `k`. */
  ghost function Accesses(actions: seq<Action>, i: nat, j: nat, k: nat): nat
    requires j <= k <= |actions|
  {
    if j == k then 0
    else Accesses(actions, i, j, k - 1) + if actions[k - 1].Advance? && actions[k - 1].i == i then 1 else 0
  }

  lemma {:induction false} AccessCounts(isIp: string -> bool, w: World, i: nat, reply: Reply, writable: bool)
    requires i < |w.tasks| && HoldsGate(w.tasks[i].phase)
    ensures AccessesLeft(Advanced(isIp, w, i, reply, writable).tasks[i].phase) < AccessesLeft(w.tasks[i].phase)
    ensures !Advanced(isIp, w, i, reply, writable).tasks[i].phase.Queued?
  {
    match w.tasks[i].phase
    case Checking(s, v) => JudgeIff(isIp, s, v);
    case _ =>
  }

  /** A refresh that has its gate is done after at most seven accesses of its own, whatever happens
      around it. */
  lemma {:induction false} RefreshEnds(isIp: string -> bool, run: seq<World>, actions: seq<Action>, j: nat, k: nat,
      i: nat)
    requires Run(isIp, run, actions) && j <= k < |run| && i < |run[j].tasks| && HoldsGate(run[j].tasks[i].phase)
    ensures i < |run[k].tasks|
    ensures run[k].tasks[i].phase.Done?
         || (HoldsGate(run[k].tasks[i].phase)
             && Accesses(actions, i, j, k) + AccessesLeft(run[k].tasks[i].phase)
                  <= AccessesLeft(run[j].tasks[i].phase) <= 7)
  {
    if j < k {
      RefreshEnds(isIp, run, actions, j, k - 1, i);
      assert StepAt(isIp, run, actions, k - 1);
      match actions[k - 1]
      case Advance(n, reply, writable) =>
        assert OnlyTask(run[k - 1], run[k], n);
        if n == i && HoldsGate(run[k - 1].tasks[i].phase) {
          AccessCounts(isIp, run[k - 1], i, reply, writable);
        }
      case _ =>
    }
  }

  /** A refresh in the queue that makes a move gets the gate if and only if nobody has it. */
  lemma {:induction false} FreeGateIsTaken(isIp: string -> bool, run: seq<World>, actions: seq<Action>, n: nat, i: nat)
    requires Run(isIp, run, actions) && MovesFrom(run, actions, n, i, Queued)
    ensures n + 1 < |run| && i < |run[n + 1].tasks|
    ensures HoldsGate(run[n + 1].tasks[i].phase) <==> run[n].tasks[i].id !in run[n].gates
  {
    assert StepAt(isIp, run, actions, n);
  }

  // -------------------------------------------------------------------------
  // Where a cache file comes from
  // -------------------------------------------------------------------------

  /** The access of a refresh that puts the cache file of `id` on the disk. */
  ghost predicate WritesFile(w: World, a: Action, id: SourceId) {
    a.Advance? && a.i < |w.tasks| && w.tasks[a.i].id == id && w.tasks[a.i].phase.Writing? && a.writable
  }

  /** Removing a source, disabling it and accidents drop its cache file. */
  ghost predicate DropsFile(w: World, a: Action, id: SourceId) {
    || a == Purge(id) || a == LoseFile(id)
    || (a == SetEnabled(id, false) && id in w.records && w.records[id].enabled)
  }

  lemma {:induction false} FileStep(isIp: string -> bool, w: World, a: Action, id: SourceId)
    requires Enabled(w, a)
    ensures DropsFile(w, a, id) ==> id !in Step(isIp, w, a).disk
    ensures WritesFile(w, a, id) ==>
              id in Step(isIp, w, a).disk && Step(isIp, w, a).disk[id] == Canon(w.tasks[a.i].phase.parse.domains)
    ensures !DropsFile(w, a, id) && !WritesFile(w, a, id) ==> SameIn(w.disk, Step(isIp, w, a).disk, id)
  {
    match a
    case Advance(i, reply, writable) => assert Effects(w, Step(isIp, w, a), i);
    case _ =>
  }

  /** A cache file was written by a refresh of its source, is what that refresh wrote, and the source
      has not been removed or disabled since. */
  lemma {:induction false} FileWasWritten(isIp: string -> bool, run: seq<World>, actions: seq<Action>, k: nat,
      id: SourceId) returns (n: nat)
    requires Run(isIp, run, actions) && k < |run| && id in run[k].disk
    ensures n < k && n < |actions| && WritesFile(run[n], actions[n], id)
    ensures run[k].disk[id] == Canon(run[n].tasks[actions[n].i].phase.parse.domains)
    ensures forall m :: n < m < k ==> !DropsFile(run[m], actions[m], id)
  {
    assert k > 0;
    assert StepAt(isIp, run, actions, k - 1);
    FileStep(isIp, run[k - 1], actions[k - 1], id);
    n := k - 1;
    if !WritesFile(run[k - 1], actions[k - 1], id) {
      n := FileWasWritten(isIp, run, actions, k - 1, id);
    }
  }

  // -------------------------------------------------------------------------
  // What a 304 is worth
  // -------------------------------------------------------------------------

  /** An honest server's precondition check, section 6 of RFC 7232: `If-None-Match` decides when
      present, otherwise `If-Modified-Since` does. */
  predicate Unmodified(p: Published, r: Request) {
    if r.ifNoneMatch.Some? then p.version.etag == r.ifNoneMatch
    else r.ifModifiedSince.Some? && p.modifiedAt <= r.ifModifiedSince.value
  }

  /** Strong validators: one source never publishes two bodies under one etag. */
  ghost predicate StrongEtags(published: set<(SourceId, Version)>) {
    forall x, y :: x in published && y in published && x.0 == y.0 && x.1.etag.Some? && x.1.etag == y.1.etag ==>
      x.1.body == y.1.body
  }

  /** What a refresh holds has been published. */
  ghost predicate PhasePublished(w: World, id: SourceId, p: Phase) {
    match p
    case Answered(_, Fresh(v)) => (id, v) in w.published
    case Checking(_, v) => (id, v) in w.published
    case Writing(_, v, _) => (id, v) in w.published
    case Recording(Replaced(v, _)) => (id, v) in w.published
    case _ => true
  }

  ghost predicate PublishedInv(w: World) {
    && (forall id :: id in w.upstream ==> (id, w.upstream[id].version) in w.published)
    && (forall i :: 0 <= i < |w.tasks| ==> PhasePublished(w, w.tasks[i].id, w.tasks[i].phase))
    && (forall id :: id in w.accepted ==> (id, w.accepted[id]) in w.published)
  }

  lemma {:induction false} ExchangedIsPublished(isIp: string -> bool, w: World, id: SourceId, p: Phase, reply: Reply)
    requires PublishedInv(w) && Exchanging(p) && Possible(w, id, reply) && PhasePublished(w, id, p)
    ensures PhasePublished(w, id, Exchanged(isIp, w, id, p, reply))
  {
    match p
    case Checking(s, v) => assert Judge(isIp, s, v).None? || Judge(isIp, s, v).Some?;
    case _ =>
  }

  lemma {:induction false} AdvancedIsPublished(isIp: string -> bool, w: World, i: nat, reply: Reply, writable: bool)
    requires PublishedInv(w) && i < |w.tasks| && Possible(w, w.tasks[i].id, reply)
    ensures PhasePublished(w, w.tasks[i].id, Advanced(isIp, w, i, reply, writable).tasks[i].phase)
  {
    var p := w.tasks[i].phase;
    assert PhasePublished(w, w.tasks[i].id, p);
    match p
    case Queued =>
    case Reading =>
    case Writing(_, _, _) =>
    case Recording(_) =>
    case Done =>
    case _ => ExchangedIsPublished(isIp, w, w.tasks[i].id, p, reply);
  }

  lemma {:induction false} AcceptedIsPublished(isIp: string -> bool, w: World, i: nat, reply: Reply, writable: bool,
      id: SourceId)
    requires PublishedInv(w) && i < |w.tasks|
    ensures var w' := Advanced(isIp, w, i, reply, writable);
      id in w'.accepted ==> (id, w'.accepted[id]) in w.published
  {
    assert PhasePublished(w, w.tasks[i].id, w.tasks[i].phase);
    match w.tasks[i].phase
    case Recording(o) => assert id in w.accepted ==> (id, w.accepted[id]) in w.published;
    case _ =>
  }

  lemma {:induction false} AdvanceKeepsPublished(isIp: string -> bool, w: World, i: nat, reply: Reply, writable: bool)
    requires PublishedInv(w) && i < |w.tasks| && Possible(w, w.tasks[i].id, reply)
    ensures PublishedInv(Advanced(isIp, w, i, reply, writable))
  {
    var w' := Advanced(isIp, w, i, reply, writable);
    AdvancedIsPublished(isIp, w, i, reply, writable);
    forall j | 0 <= j < |w'.tasks| ensures PhasePublished(w', w'.tasks[j].id, w'.tasks[j].phase) {
      assert PhasePublished(w, w.tasks[j].id, w.tasks[j].phase);
      assert PhasePublished(w, w'.tasks[j].id, w'.tasks[j].phase);
    }
    forall id | id in w'.accepted ensures (id, w'.accepted[id]) in w'.published {
      AcceptedIsPublished(isIp, w, i, reply, writable, id);
    }
  }

  lemma {:induction false} OutsideKeepsPublished(isIp: string -> bool, w: World, a: Action)
    requires PublishedInv(w) && Enabled(w, a) && !a.Advance?
    ensures PublishedInv(Step(isIp, w, a))
  {
    var w' := Step(isIp, w, a);
    assert w.published <= w'.published;
    forall j | 0 <= j < |w'.tasks| ensures PhasePublished(w', w'.tasks[j].id, w'.tasks[j].phase) {
      assert j < |w.tasks| ==> PhasePublished(w, w.tasks[j].id, w.tasks[j].phase);
    }
  }

  lemma {:induction false} RunKeepsPublished(isIp: string -> bool, run: seq<World>, actions: seq<Action>, k: nat)
    requires Run(isIp, run, actions) && k < |run|
    ensures PublishedInv(run[k])
  {
    if k > 0 {
      RunKeepsPublished(isIp, run, actions, k - 1);
      assert StepAt(isIp, run, actions, k - 1);
      match actions[k - 1]
      case Advance(i, reply, writable) => AdvanceKeepsPublished(isIp, run[k - 1], i, reply, writable);
      case _ => OutsideKeepsPublished(isIp, run[k - 1], actions[k - 1]);
    }
  }

  /** A record with an etag: an honest 304 to its next conditional request means the cache is the
      canonical text of what the server publishes now. */
  lemma {:induction false} EtagVouches(isIp: string -> bool, run: seq<World>, actions: seq<Action>, k: nat,
      id: SourceId)
    requires Run(isIp, run, actions) && k < |run| && StrongEtags(run[k].published)
    requires id in run[k].records && id !in run[k].gates && id in run[k].disk && id in run[k].upstream
    requires run[k].records[id].etag.Some?
    requires Unmodified(run[k].upstream[id], RequestFor(run[k].records[id], false))
    ensures run[k].upstream[id].version.body.Some?
    ensures run[k].disk[id]
         == Canon(ParseBlocklist(isIp, run[k].records[id].format, run[k].upstream[id].version.body.value).domains)
  {
    CacheMatchesRecord(isIp, run, actions, k, id);
    RunKeepsPublished(isIp, run, actions, k);
    var w := run[k];
    var x, y := (id, w.accepted[id]), (id, w.upstream[id].version);
    assert x in w.published && y in w.published;
  }

  // -------------------------------------------------------------------------
  // Revalidation by date alone
  // -------------------------------------------------------------------------

  /** At step `n` the server sends refresh `i` a body. */
  ghost predicate SendsBody(run: seq<World>, actions: seq<Action>, n: nat, i: nat) {
    && n < |actions| && n < |run| && actions[n].Advance? && actions[n].i == i && i < |run[n].tasks|
    && (run[n].tasks[i].phase.Requesting? || run[n].tasks[i].phase.Rerequesting?) && actions[n].reply.Fresh?
  }

  ghost predicate Publishes(actions: seq<Action>, n: nat, id: SourceId) {
    n < |actions| && actions[n].Publish? && actions[n].id == id
  }

  /** Refresh `i` was sent a body at step `sent` and recorded it at step `installed`, the last one
      to install a list for `id` before step `k`; `recorded` is the last step before `k` at which
      any refresh of `id` succeeded. */
  ghost predicate Window(run: seq<World>, actions: seq<Action>, k: nat, id: SourceId, i: nat, sent: nat,
      installed: nat, recorded: nat)
  {
    && sent < installed <= recorded < k
    && SendsBody(run, actions, sent, i) && Installs(run, actions, installed, i, id)
    && (forall n, j :: installed < n < k ==> !Installs(run, actions, n, j, id))
    && (exists j :: Records(run, actions, recorded, j, id))
    && (forall n, j :: recorded < n < k ==> !Records(run, actions, n, j, id))
  }

  /** The body a refresh was sent, if it still holds one. */
  ghost predicate Carries(p: Phase, v: Version) {
    match p
    case Answered(_, Fresh(u)) => u == v
    case Checking(_, u) => u == v
    case Writing(_, u, _) => u == v
    case Recording(o) => !o.Kept? && (o.Replaced? ==> o.version == v)
    case Done => true
    case _ => false
  }

  lemma {:induction false} AdvanceCarries(isIp: string -> bool, w: World, i: nat, reply: Reply, writable: bool,
      v: Version)
    requires i < |w.tasks| && Carries(w.tasks[i].phase, v)
    ensures Carries(Advanced(isIp, w, i, reply, writable).tasks[i].phase, v)
  {
    match w.tasks[i].phase
    case Checking(s, u) => assert Judge(isIp, s, u).None? || Judge(isIp, s, u).Some?;
    case _ =>
  }

  lemma {:induction false} StepCarries(isIp: string -> bool, w: World, a: Action, i: nat, v: Version)
    requires Enabled(w, a) && i < |w.tasks| && Carries(w.tasks[i].phase, v)
    ensures i < |Step(isIp, w, a).tasks| && Step(isIp, w, a).tasks[i].id == w.tasks[i].id
    ensures Carries(Step(isIp, w, a).tasks[i].phase, v)
  {
    match a
    case Advance(n, reply, writable) =>
      assert OnlyTask(w, Step(isIp, w, a), n);
      AdvanceCarries(isIp, w, if n == i then n else i, reply, writable, v);
    case _ =>
  }

  /** From the step that sent it on, a refresh carries its body. */
  lemma {:induction false} BodyIsCarried(isIp: string -> bool, run: seq<World>, actions: seq<Action>, sent: nat, n: nat,
      i: nat)
    requires Run(isIp, run, actions) && sent < n < |run| && SendsBody(run, actions, sent, i)
    ensures i < |run[n].tasks| && run[n].tasks[i].id == run[sent].tasks[i].id
    ensures Carries(run[n].tasks[i].phase, actions[sent].reply.version)
  {
    assert StepAt(isIp, run, actions, n - 1);
    if sent < n - 1 {
      BodyIsCarried(isIp, run, actions, sent, n - 1, i);
      StepCarries(isIp, run[n - 1], actions[n - 1], i, actions[sent].reply.version);
    }
  }

  /** The accepted version changes only when a list is installed. */
  lemma {:induction false} AcceptedStays(isIp: string -> bool, run: seq<World>, actions: seq<Action>, installed: nat,
      k: nat, i: nat, id: SourceId)
    requires Run(isIp, run, actions) && installed < k < |run| && Installs(run, actions, installed, i, id)
    requires forall n, j :: installed < n < k ==> !Installs(run, actions, n, j, id)
    ensures id in run[k].accepted && run[k].accepted[id] == run[installed].tasks[i].phase.outcome.version
  {
    assert StepAt(isIp, run, actions, k - 1);
    if installed < k - 1 {
      AcceptedStays(isIp, run, actions, installed, k - 1, i, id);
      AcceptedStep(isIp, run, actions, k - 1, id);
    }
  }

  /** The date of a record that is still there at step `k` is that of its last success. */
  lemma {:induction false} DateStays(isIp: string -> bool, run: seq<World>, actions: seq<Action>, recorded: nat,
      k: nat, i: nat, id: SourceId)
    requires Run(isIp, run, actions) && recorded < k < |run| && Records(run, actions, recorded, i, id)
    requires forall n, j :: recorded < n < k ==> !Records(run, actions, n, j, id)
    ensures id in run[k].used && (id in run[k].records ==> run[k].records[id].lastFetchedAt == Some(run[recorded].now))
  {
    assert StepAt(isIp, run, actions, k - 1);
    RunKeepsInvariant(isIp, run, actions, k);
    assert SourceInv(isIp, run[k], id);
    if recorded < k - 1 {
      DateStays(isIp, run, actions, recorded, k - 1, i, id);
      if id in run[k].records {
        StaysRecorded(isIp, run[k - 1], actions[k - 1], id);
        RefusalKeepsRecord(isIp, run, actions, k - 1, id);
      }
    } else {
      RunKeepsInvariant(isIp, run, actions, recorded);
      assert SourceInv(isIp, run[recorded], id);
      AdvanceKeepsRecord(isIp, run[recorded], i, actions[recorded].reply, actions[recorded].writable, id);
    }
  }

  /** An id that has been used is not added again. */
  lemma {:induction false} StaysRecorded(isIp: string -> bool, w: World, a: Action, id: SourceId)
    requires Enabled(w, a) && id in w.used && id in Step(isIp, w, a).records
    ensures id in w.records
  {
    match a
    case Advance(i, reply, writable) =>
      if w.tasks[i].phase.Recording? {
        RecordedFrame(w, i, w.tasks[i].phase.outcome);
      }
    case _ =>
  }

  lemma {:induction false} UpstreamStays(isIp: string -> bool, w: World, a: Action, id: SourceId)
    requires Enabled(w, a) && !(a.Publish? && a.id == id)
    ensures SameIn(w.upstream, Step(isIp, w, a).upstream, id)
  {
  }

  /** What was current at step `n` still is if and only if nothing was published since. */
  lemma {:induction false} CurrentIff(isIp: string -> bool, run: seq<World>, actions: seq<Action>, n: nat, k: nat,
      id: SourceId)
    requires Run(isIp, run, actions) && n <= k < |run| && id in run[n].upstream
    ensures id in run[k].upstream
    ensures run[n].upstream[id].version.revision <= run[k].upstream[id].version.revision
    ensures run[n].upstream[id].version == run[k].upstream[id].version
       <==> forall m :: n <= m < k ==> !Publishes(actions, m, id)
  {
    if n < k {
      assert StepAt(isIp, run, actions, k - 1);
      CurrentIff(isIp, run, actions, n, k - 1, id);
      if !Publishes(actions, k - 1, id) {
        UpstreamStays(isIp, run[k - 1], actions[k - 1], id);
      }
    }
  }

  /** The current version carries the date of its publication. */
  lemma {:induction false} LastPublication(isIp: string -> bool, run: seq<World>, actions: seq<Action>, n: nat, k: nat,
      id: SourceId, m: nat) returns (p: nat)
    requires Run(isIp, run, actions) && n <= m < k < |run| && Publishes(actions, m, id)
    ensures n <= p < k && Publishes(actions, p, id)
    ensures id in run[k].upstream && run[k].upstream[id].modifiedAt == run[p].now
  {
    assert StepAt(isIp, run, actions, k - 1);
    if Publishes(actions, k - 1, id) {
      p := k - 1;
    } else {
      p := LastPublication(isIp, run, actions, n, k - 1, id, m);
      UpstreamStays(isIp, run[k - 1], actions[k - 1], id);
    }
  }

  /** A record without an etag relies on the date alone, which counts seconds and is taken when an
      outcome is recorded, not when the body was sent. When an honest 304 comes back, the cached
      version is the current one if and only if nothing was published between the step that sent
      its body and the end of the second in which a success was last recorded, be it the body
      itself or a later 304. */
  lemma {:induction false} DateVouchesIff(isIp: string -> bool, run: seq<World>, actions: seq<Action>, k: nat,
      id: SourceId, i: nat, sent: nat, installed: nat, recorded: nat)
    requires Run(isIp, run, actions) && k < |run|
    requires id in run[k].records && id !in run[k].gates && id in run[k].disk && id in run[k].upstream
    requires run[k].records[id].etag.None?
    requires Unmodified(run[k].upstream[id], RequestFor(run[k].records[id], false))
    requires Window(run, actions, k, id, i, sent, installed, recorded)
    ensures id in run[k].accepted && Describes(isIp, run[k].records[id], run[k].accepted[id], run[k].disk[id])
    ensures run[k].accepted[id] == run[k].upstream[id].version
       <==> forall n :: sent <= n < k && Publishes(actions, n, id) ==> run[recorded].now < run[n].now
  {
    CacheMatchesRecord(isIp, run, actions, k, id);
    assert StepAt(isIp, run, actions, sent);
    BodyIsCarried(isIp, run, actions, sent, installed, i);
    AcceptedStays(isIp, run, actions, installed, k, i, id);
    CurrentIff(isIp, run, actions, sent, k, id);
    var j :| Records(run, actions, recorded, j, id);
    DateStays(isIp, run, actions, recorded, k, j, id);
    if m :| sent <= m < k && Publishes(actions, m, id) {
      var p := LastPublication(isIp, run, actions, sent, k, id, m);
    }
  }

  /** There is always such a window behind a cached list. */
  lemma {:induction false} WindowExists(isIp: string -> bool, run: seq<World>, actions: seq<Action>, k: nat,
      id: SourceId) returns (i: nat, sent: nat, installed: nat, recorded: nat)
    requires Run(isIp, run, actions) && k < |run|
    requires id in run[k].records && id !in run[k].gates && id in run[k].disk
    ensures Window(run, actions, k, id, i, sent, installed, recorded)
  {
    CacheMatchesRecord(isIp, run, actions, k, id);
    i, installed := LastInstallation(isIp, run, actions, k, id);
    sent := SentBefore(isIp, run, actions, installed, i);
    recorded := LastSuccess(run, actions, k, installed, i, id);
  }

  lemma {:induction false} LastInstallation(isIp: string -> bool, run: seq<World>, actions: seq<Action>, k: nat,
      id: SourceId) returns (i: nat, installed: nat)
    requires Run(isIp, run, actions) && k < |run| && id in run[k].accepted
    ensures installed < k && Installs(run, actions, installed, i, id)
    ensures forall n, j :: installed < n < k ==> !Installs(run, actions, n, j, id)
  {
    assert k > 0;
    var last := k - 1;
    assert StepAt(isIp, run, actions, last);
    if j :| Installs(run, actions, last, j, id) {
      i, installed := j, last;
    } else {
      AcceptedStep(isIp, run, actions, k - 1, id);
      i, installed := LastInstallation(isIp, run, actions, k - 1, id);
    }
  }

  lemma {:induction false} AcceptedStep(isIp: string -> bool, run: seq<World>, actions: seq<Action>, n: nat,
      id: SourceId)
    requires StepAt(isIp, run, actions, n) && forall j :: !Installs(run, actions, n, j, id)
    ensures SameIn(run[n].accepted, run[n + 1].accepted, id)
  {
    match actions[n]
    case Advance(j, reply, writable) => assert !Installs(run, actions, n, j, id);
    case _ =>
  }

  ghost predicate HoldsBody(p: Phase) {
    (p.Answered? && p.reply.Fresh?) || p.Checking? || p.Writing? || Between(p)
  }

  /** A refresh that holds a body was sent one. */
  lemma {:induction false} SentBefore(isIp: string -> bool, run: seq<World>, actions: seq<Action>, n: nat, i: nat)
    returns (sent: nat)
    requires Run(isIp, run, actions) && n < |run| && i < |run[n].tasks| && HoldsBody(run[n].tasks[i].phase)
    ensures sent < n && SendsBody(run, actions, sent, i)
  {
    assert n > 0;
    assert StepAt(isIp, run, actions, n - 1);
    if SendsBody(run, actions, n - 1, i) {
      sent := n - 1;
    } else {
      HeldBefore(isIp, run[n - 1], actions[n - 1], i);
      sent := SentBefore(isIp, run, actions, n - 1, i);
    }
  }

  lemma {:induction false} HeldBefore(isIp: string -> bool, w: World, a: Action, i: nat)
    requires Enabled(w, a) && i < |Step(isIp, w, a).tasks| && HoldsBody(Step(isIp, w, a).tasks[i].phase)
    requires !(a.Advance? && a.i == i && i < |w.tasks| && a.reply.Fresh?
               && (w.tasks[i].phase.Requesting? || w.tasks[i].phase.Rerequesting?))
    ensures i < |w.tasks| && HoldsBody(w.tasks[i].phase)
  {
    match a
    case Advance(n, reply, writable) => assert OnlyTask(w, Step(isIp, w, a), n);
    case _ =>
  }

  lemma {:induction false} LastSuccess(run: seq<World>, actions: seq<Action>, k: nat, installed: nat, i: nat,
      id: SourceId) returns (recorded: nat)
    requires installed < k && Records(run, actions, installed, i, id)
    ensures installed <= recorded < k && exists j :: Records(run, actions, recorded, j, id)
    ensures forall n, j :: recorded < n < k ==> !Records(run, actions, n, j, id)
  {
    var last := k - 1;
    if j :| Records(run, actions, last, j, id) {
      recorded := last;
    } else {
      recorded := LastSuccess(run, actions, k - 1, installed, i, id);
    }
  }

  ghost predicate Reachable(isIp: string -> bool, w: World) {
    exists run, actions :: Run(isIp, run, actions) && run[|run| - 1] == w
  }

  lemma {:induction false} StepsReach(isIp: string -> bool, w: World, a: Action)
    requires Reachable(isIp, w) && Enabled(w, a)
    ensures Reachable(isIp, Step(isIp, w, a))
  {
    var run, actions :| Run(isIp, run, actions) && run[|run| - 1] == w;
    var run', actions' := run + [Step(isIp, w, a)], actions + [a];
    forall k | 0 <= k < |actions'| ensures StepAt(isIp, run', actions', k) {
      assert k < |actions| ==> StepAt(isIp, run, actions, k);
    }
    assert Run(isIp, run', actions') && run'[|run'| - 1] == Step(isIp, w, a);
  }

  /** A source without an etag is added, published, and its only refresh is in phase `p`. */
  ghost predicate Midway(w: World, s: Source, v: Version, p: Phase) {
    && s.id in w.records && w.records[s.id] == s && w.tasks == [Task(s.id, false, p)] && s.id in w.upstream
    && (w.upstream[s.id].version == v || w.upstream[s.id].version.revision == v.revision + 1)
    && w.upstream[s.id].modifiedAt == w.now
  }

  lemma {:induction false} ReachRequest(isIp: string -> bool, s: Source, v: Version, w0: World) returns (w: World)
    requires s.etag == None && s.ruleCount == 0 && s.lastFetchedAt == None
    requires v.revision == 0 && Initial(w0)
    ensures Reachable(isIp, w) && Midway(w, s, v, Requesting(s)) && w.upstream[s.id].version == v
  {
    assert Run(isIp, [w0], []) && [w0][|[w0]| - 1] == w0;
    StepsReach(isIp, w0, Add(s.id, s));
    w := Step(isIp, w0, Add(s.id, s));
    StepsReach(isIp, w, Publish(s.id, v.body, v.etag));
    w := Step(isIp, w, Publish(s.id, v.body, v.etag));
    StepsReach(isIp, w, Start(s.id, false));
    w := Step(isIp, w, Start(s.id, false));
    assert Midway(w, s, v, Queued) && s.id !in w.gates;
    w := ReachReading(isIp, s, v, w);
  }

  lemma {:induction false} ReachReading(isIp: string -> bool, s: Source, v: Version, w0: World) returns (w: World)
    requires Reachable(isIp, w0) && Midway(w0, s, v, Queued) && s.id !in w0.gates
    ensures Reachable(isIp, w) && Midway(w, s, v, Requesting(s)) && w.upstream == w0.upstream
  {
    var go := Advance(0, Failed, true);
    StepsReach(isIp, w0, go);
    w := Step(isIp, w0, go);
    StepsReach(isIp, w, go);
    w := Step(isIp, w, go);
  }

  lemma {:induction false} ReachChecking(isIp: string -> bool, s: Source, v: Version, w0: World) returns (w: World)
    requires Reachable(isIp, w0) && Midway(w0, s, v, Requesting(s)) && w0.upstream[s.id].version == v
    ensures Reachable(isIp, w) && Midway(w, s, v, Checking(s, v))
    ensures w.upstream[s.id].version == v && w.now == w0.now
  {
    var go := Advance(0, Fresh(v), true);
    StepsReach(isIp, w0, go);
    w := Step(isIp, w0, go);
    StepsReach(isIp, w, go);
    w := Step(isIp, w, go);
  }

  lemma {:induction false} ReachWriting(isIp: string -> bool, s: Source, v: Version, p: Parse, w0: World)
    returns (w: World)
    requires Reachable(isIp, w0) && Midway(w0, s, v, Checking(s, v)) && Judge(isIp, s, v) == Some(p)
    ensures Reachable(isIp, w) && Midway(w, s, v, Writing(s, v, p))
    ensures w.upstream == w0.upstream && w.now == w0.now
  {
    StepsReach(isIp, w0, Advance(0, Failed, true));
    w := Step(isIp, w0, Advance(0, Failed, true));
  }

  lemma {:induction false} ReachWritten(isIp: string -> bool, s: Source, v: Version, p: Parse, w0: World)
    returns (w: World)
    requires Reachable(isIp, w0) && Midway(w0, s, v, Writing(s, v, p))
    ensures Reachable(isIp, w) && Midway(w, s, v, Recording(Replaced(v, p)))
    ensures w.upstream == w0.upstream && w.now == w0.now && s.id in w.disk
  {
    StepsReach(isIp, w0, Advance(0, Failed, true));
    w := Step(isIp, w0, Advance(0, Failed, true));
  }

  lemma {:induction false} ReachRecording(isIp: string -> bool, s: Source, v: Version, w0: World)
    returns (w: World)
    requires Reachable(isIp, w0) && Midway(w0, s, v, Checking(s, v)) && Judge(isIp, s, v).Some?
    ensures Reachable(isIp, w) && Midway(w, s, v, Recording(Replaced(v, Judge(isIp, s, v).value)))
    ensures w.upstream == w0.upstream && w.now == w0.now && s.id in w.disk
  {
    var p := Judge(isIp, s, v).value;
    w := ReachWriting(isIp, s, v, p, w0);
    w := ReachWritten(isIp, s, v, p, w);
  }

  /** A 304 vouches for a version that is no longer current. */
  ghost predicate IsStale(w: World, s: Source, before: string, after: string) {
    && s.id in w.records && s.id !in w.gates && s.id in w.disk && s.id in w.upstream && s.id in w.accepted
    && Unmodified(w.upstream[s.id], RequestFor(w.records[s.id], false))
    && w.accepted[s.id].body == Some(before) && w.upstream[s.id].version.body == Some(after)
  }

  /** The server changes its list after sending the body and before the refresh has recorded it. */
  lemma {:induction false} StaleRevalidation(isIp: string -> bool, s: Source, w0: World, before: string, after: string)
    returns (w: World)
    requires s.etag == None && s.ruleCount == 0 && s.lastFetchedAt == None && Initial(w0)
    requires Judge(isIp, s, Version(0, Some(before), None)).Some?
    ensures Reachable(isIp, w) && IsStale(w, s, before, after)
  {
    var v := Version(0, Some(before), None);
    w := ReachRequest(isIp, s, v, w0);
    w := ReachChecking(isIp, s, v, w);
    StepsReach(isIp, w, Publish(s.id, Some(after), None));
    w := Step(isIp, w, Publish(s.id, Some(after), None));
    w := ReachRecording(isIp, s, v, w);
    StepsReach(isIp, w, Advance(0, Failed, true));
    w := Step(isIp, w, Advance(0, Failed, true));
  }

  /** Or it changes its list right after that, in the same second. */
  lemma {:induction false} StaleWithinSecond(isIp: string -> bool, s: Source, w0: World, before: string, after: string)
    returns (w: World)
    requires s.etag == None && s.ruleCount == 0 && s.lastFetchedAt == None && Initial(w0)
    requires Judge(isIp, s, Version(0, Some(before), None)).Some?
    ensures Reachable(isIp, w) && IsStale(w, s, before, after)
  {
    var v := Version(0, Some(before), None);
    w := ReachRequest(isIp, s, v, w0);
    w := ReachChecking(isIp, s, v, w);
    w := ReachRecording(isIp, s, v, w);
    StepsReach(isIp, w, Advance(0, Failed, true));
    w := Step(isIp, w, Advance(0, Failed, true));
    StepsReach(isIp, w, Publish(s.id, Some(after), None));
    w := Step(isIp, w, Publish(s.id, Some(after), None));
  }
}
