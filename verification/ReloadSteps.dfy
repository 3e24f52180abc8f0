/** Any number of reloads and overlap reports running against one gate and one server, each
    atomic access a step of its own. Cache files change underneath them at any time. */
module ReloadSteps {
  import opened Base
  import opened AdBlockModel
  import opened Sorting
  import opened Fingerprint
  import opened RuleInputs
  import opened ReloadGate

  /** A reload (forced when it seeds a new engine) or a reader of the parse cache. */
  datatype Kind = Reload(force: bool) | Report

  datatype Outcome = Skipped | Cancelled | Reloaded | Reported

  /** From `Comparing` to `Recording` a task holds the fingerprint lock. */
  datatype Phase =
    | Loading(k: nat)
    | Looking(k: nat, content: string)
    | Parsing(k: nat, content: string)
    | Retaining
    | Waiting
    | Comparing
    | CheckingCancel
    | Mirroring
    | Rebuilding
    | Recording
    | Finished(outcome: Outcome)

  /** `caches` is the history of what was read; the code only keeps `loaded`. */
  datatype Task = Task(kind: Kind, snap: AdBlockState, phase: Phase, caches: seq<Cached>, loaded: seq<Loaded>)

  /** `seeded` is false from the moment a new server is put in place until rules are installed
      in it; `history` records the texts and readings seen so far. */
  datatype System = System(
    disk: Disk,
    parsed: ParseCache,
    fingerprint: Option<Hash>,
    holder: Option<nat>,
    rules: Rules,
    seeded: bool,
    tasks: seq<Task>,
    history: History)

  predicate Locked(p: Phase) {
    p.Comparing? || p.CheckingCancel? || p.Mirroring? || p.Rebuilding? || p.Recording?
  }

  function StartPhase(kind: Kind, snap: AdBlockState): Phase {
    if kind.Report? || snap.enabled then Loading(0) else Retaining
  }

  function ReadingOfTask(t: Task): Reading {
    Reading(t.snap.enabled, t.caches, t.snap.whitelist)
  }

  /** The inputs as they are computed from what the loads returned. */
  function InputsOfTask(env: Env, t: Task): ClassifyInputs {
    var sources := Sort(LoadedById, t.loaded);
    ClassifyInputs(env.fingerprintHash(Stream(KeyOfLoaded(t.snap.enabled, sources, t.snap.whitelist))),
                   t.snap.enabled, sources, TextSet(t.snap.whitelist))
  }

  function Extend(env: Env, t: Task, content: string, domains: seq<string>, k: nat): Task
    requires k < |t.snap.sources|
  {
    t.(phase := Loading(k + 1),
       caches := t.caches + [Cached(t.snap.sources[k], content)],
       loaded := t.loaded + [Loaded(t.snap.sources[k], env.contentHash(content), domains)])
  }

  function Put(s: System, i: nat, t: Task): System
    requires i < |s.tasks|
  {
    s.(tasks := s.tasks[i := t])
  }

  function Release(s: System, i: nat, outcome: Outcome): System
    requires i < |s.tasks|
  {
    Put(s, i, s.tasks[i].(phase := Finished(outcome))).(holder := None)
  }

  // -------------------------------------------------------------------------
  // Steps
  // -------------------------------------------------------------------------

  /** Task `i` reads the next cache file, or finds there is none left. A failed read counts as
      an empty file. */
  ghost predicate ReadStep(env: Env, s: System, s': System, i: nat)
    requires i < |s.tasks| && s.tasks[i].phase.Loading?
  {
    var t := s.tasks[i];
    var k := t.phase.k;
    if k >= |t.snap.sources| then
      s' == Put(s, i, t.(phase := if t.kind.Report? then Finished(Reported) else Retaining))
    else if !t.snap.sources[k].enabled then
      s' == Put(s, i, t.(phase := Loading(k + 1)))
    else
      exists content :: content in {CacheText(s.disk, t.snap.sources[k].id), ""} &&
        s' == Put(s, i, t.(phase := Looking(k, content))).(history := s.history.(texts := s.history.texts + {content}))
  }

  ghost predicate LookStep(env: Env, s: System, s': System, i: nat)
    requires i < |s.tasks| && s.tasks[i].phase.Looking?
  {
    var t := s.tasks[i];
    var k, content := t.phase.k, t.phase.content;
    k < |t.snap.sources| &&
    match Lookup(s.parsed, t.snap.sources[k].id, env.contentHash(content))
    case Some(domains) => s' == Put(s, i, Extend(env, t, content, domains, k))
    case None => s' == Put(s, i, t.(phase := Parsing(k, content)))
  }

  ghost predicate ParseStep(env: Env, s: System, s': System, i: nat)
    requires i < |s.tasks| && s.tasks[i].phase.Parsing?
  {
    var t := s.tasks[i];
    var k, content := t.phase.k, t.phase.content;
    k < |t.snap.sources| &&
    s' == Put(s, i, Extend(env, t, content, env.parse(content), k))
            .(parsed := s.parsed[t.snap.sources[k].id := ParsedOf(env, content)])
  }

  ghost predicate RetainStep(s: System, s': System, i: nat)
    requires i < |s.tasks|
  {
    var t := s.tasks[i];
    s' == Put(s, i, t.(phase := Waiting))
            .(parsed := Retained(s.parsed, EnabledIds(t.snap.sources)),
              history := s.history.(readings := s.history.readings + {ReadingOfTask(t)}))
  }

  /** The critical section, one access at a time. */
  ghost predicate LockedStep(env: Env, s: System, s': System, i: nat)
    requires i < |s.tasks| && s.tasks[i].kind.Reload? && Locked(s.tasks[i].phase)
  {
    var t := s.tasks[i];
    var inputs := InputsOfTask(env, t);
    match t.phase
    case Comparing =>
      s' == if !t.kind.force && s.fingerprint == Some(inputs.fingerprint) then Release(s, i, Skipped)
            else Put(s, i, t.(phase := CheckingCancel))
    case CheckingCancel =>
      s' == Put(s, i, t.(phase := Mirroring)) || (!t.kind.force && s' == Release(s, i, Cancelled))
    case Mirroring =>
      s' == Put(s, i, t.(phase := Rebuilding)).(rules := s.rules.(enabled := t.snap.enabled))
    case Rebuilding =>
      s' == Put(s, i, t.(phase := Recording)).(rules := RulesOfInputs(inputs).(enabled := s.rules.enabled))
    case Recording =>
      s' == Release(s, i, Reloaded).(fingerprint := Some(inputs.fingerprint), seeded := true)
    case _ => false
  }

  ghost predicate TaskStep(env: Env, s: System, s': System, i: nat) {
    i < |s.tasks| &&
    var t := s.tasks[i];
    match t.phase
    case Loading(_) => ReadStep(env, s, s', i)
    case Looking(_, _) => LookStep(env, s, s', i)
    case Parsing(_, _) => ParseStep(env, s, s', i)
    case Retaining => RetainStep(s, s', i)
    case Waiting => s.holder == None && s' == Put(s, i, t.(phase := Comparing)).(holder := Some(i))
    case Finished(_) => false
    case _ => t.kind.Reload? && LockedStep(env, s, s', i)
  }

  /** A new reload or report starts from some snapshot of the settings. */
  ghost predicate Spawn(s: System, s': System, kind: Kind, snap: AdBlockState) {
    s' == s.(tasks := s.tasks + [Task(kind, snap, StartPhase(kind, snap), [], [])])
  }

  ghost predicate FilesChange(s: System, s': System) {
    s' == s.(disk := s'.disk)
  }

  /** DNS mode comes back with a fresh, empty engine; a forced reload is to follow. */
  ghost predicate ReplaceServer(s: System, s': System) {
    s.holder == None && s' == s.(rules := Rules(false, map[], {}, {}), seeded := false)
  }

  ghost predicate Next(env: Env, s: System, s': System) {
    || (exists i :: TaskStep(env, s, s', i))
    || (exists kind, snap :: Spawn(s, s', kind, snap))
    || FilesChange(s, s')
    || ReplaceServer(s, s')
  }

  ghost predicate Init(s: System) {
    s.parsed == map[] && s.fingerprint == None && s.holder == None && s.tasks == [] && s.history == History({}, {})
  }

  ghost predicate StepAt(env: Env, run: seq<System>, i: nat) {
    i + 1 < |run| && Next(env, run[i], run[i + 1])
  }

  ghost predicate Run(env: Env, run: seq<System>) {
    |run| > 0 && Init(run[0]) && forall i :: 0 <= i < |run| - 1 ==> StepAt(env, run, i)
  }

  // -------------------------------------------------------------------------
  // The invariant
  // -------------------------------------------------------------------------

  function EnabledSources(sources: seq<Source>): seq<Source> {
    if sources == [] then []
    else
      var s := sources[|sources| - 1];
      EnabledSources(sources[..|sources| - 1]) + if s.enabled then [s] else []
  }

  function SourcesRead(caches: seq<Cached>): (r: seq<Source>)
    ensures |r| == |caches|
  {
    seq(|caches|, i requires 0 <= i < |caches| => caches[i].source)
  }

  /** How far a task has read; a reload with the master switch off reads nothing. */
  function Progress(t: Task): seq<Source> {
    match t.phase
    case Loading(k) => if k <= |t.snap.sources| then t.snap.sources[..k] else t.snap.sources
    case Looking(k, _) => if k <= |t.snap.sources| then t.snap.sources[..k] else t.snap.sources
    case Parsing(k, _) => if k <= |t.snap.sources| then t.snap.sources[..k] else t.snap.sources
    case _ => if t.kind.Report? || t.snap.enabled then t.snap.sources else []
  }

  ghost predicate TaskInv(env: Env, h: History, t: Task) {
    && t.loaded == LoadAll(env, t.caches)
    && Contents(ReadingOfTask(t)) <= h.texts
    && SourcesRead(t.caches) == EnabledSources(Progress(t))
    && (t.phase.Loading? ==> t.phase.k <= |t.snap.sources| && (t.kind.Report? || t.snap.enabled))
    && (t.phase.Looking? || t.phase.Parsing? ==>
          && (t.kind.Report? || t.snap.enabled)
          && t.phase.k < |t.snap.sources| && t.snap.sources[t.phase.k].enabled && t.phase.content in h.texts)
    && (t.kind.Report? ==> t.phase.Loading? || t.phase.Looking? || t.phase.Parsing? || t.phase == Finished(Reported))
    && (t.phase.Waiting? || Locked(t.phase) ==> ReadingOfTask(t) in h.readings)
  }

  /** The engine against the label: they agree except while the lock's holder is between
      mirroring the switch and recording the label. */
  ghost predicate EngineInv(env: Env, s: System) {
    if s.holder.Some? && s.holder.value < |s.tasks| && s.tasks[s.holder.value].phase.Rebuilding? then
      s.rules.enabled == s.tasks[s.holder.value].snap.enabled
    else if s.holder.Some? && s.holder.value < |s.tasks| && s.tasks[s.holder.value].phase.Recording? then
      s.rules == RebuildOf(env, ReadingOfTask(s.tasks[s.holder.value]))
    else
      s.seeded ==> LabelAgrees(env, s.history, s.fingerprint, s.rules)
  }

  ghost predicate LockInv(s: System) {
    && (s.holder.Some? ==> s.holder.value < |s.tasks|)
    && forall i :: 0 <= i < |s.tasks| ==> (Locked(s.tasks[i].phase) <==> s.holder == Some(i))
  }

  ghost predicate Inv(env: Env, s: System) {
    && Closed(s.history)
    && EntriesSound(env, s.parsed, s.history.texts)
    && (forall i :: 0 <= i < |s.tasks| ==> TaskInv(env, s.history, s.tasks[i]))
    && LockInv(s)
    && EngineInv(env, s)
  }

  lemma {:induction false} TaskInputsAreRecomputed(env: Env, t: Task)
    requires t.loaded == LoadAll(env, t.caches)
    ensures InputsOfTask(env, t) == InputsOf(env, ReadingOfTask(t))
  {
    SortCommutesWithLoad(env, t.caches);
  }

  lemma {:induction false} EnabledSourcesSnoc(sources: seq<Source>, k: nat)
    requires k < |sources|
    ensures EnabledSources(sources[..k + 1])
         == EnabledSources(sources[..k]) + if sources[k].enabled then [sources[k]] else []
  {
    assert sources[..k + 1][..k] == sources[..k];
  }

  // -------------------------------------------------------------------------
  // What a step leaves alone
  // -------------------------------------------------------------------------

  ghost predicate Grows(g: History, h: History) {
    g.texts <= h.texts && g.readings <= h.readings
  }

  /** A step of task `i` touches no other task, keeps its kind and snapshot, and forgets no history. */
  ghost predicate OnlyTask(s: System, s': System, i: nat) {
    && |s'.tasks| == |s.tasks| && i < |s.tasks|
    && (forall j :: 0 <= j < |s.tasks| && j != i ==> s'.tasks[j] == s.tasks[j])
    && s'.tasks[i].kind == s.tasks[i].kind && s'.tasks[i].snap == s.tasks[i].snap
    && !s.tasks[i].phase.Finished?
    && Grows(s.history, s'.history)
  }

  /** A task in the critical section moved on to phase `p`: what its step left alone. */
  ghost predicate LockedMove(s: System, s': System, i: nat, p: Phase)
    requires i < |s.tasks|
  {
    && s'.tasks == s.tasks[i := s.tasks[i].(phase := p)]
    && s'.holder == (if Locked(p) then s.holder else None)
    && s'.history == s.history && s'.parsed == s.parsed
    && (Locked(p) || p.Finished?)
    && (p.Finished? && s.tasks[i].kind == Reload(true) ==> p.outcome == Reloaded)
  }

  lemma {:induction false} LockedMoves(env: Env, s: System, s': System, i: nat)
    requires i < |s.tasks| && s.tasks[i].kind.Reload? && Locked(s.tasks[i].phase)
    requires LockedStep(env, s, s', i)
    ensures i < |s'.tasks| && LockedMove(s, s', i, s'.tasks[i].phase)
  {
    match s.tasks[i].phase
    case Comparing =>
    case CheckingCancel =>
      if s' == Put(s, i, s.tasks[i].(phase := Mirroring)) {
        assert s'.tasks[i].phase == Mirroring;
      } else {
        assert s'.tasks[i].phase == Finished(Cancelled);
      }
    case Mirroring => assert s'.tasks[i].phase == Rebuilding;
    case Rebuilding => assert s'.tasks[i].phase == Recording;
    case Recording => assert s'.tasks[i].phase == Finished(Reloaded);
  }

  lemma {:induction false} LockedFrame(env: Env, s: System, s': System, i: nat)
    requires i < |s.tasks| && s.tasks[i].kind.Reload? && Locked(s.tasks[i].phase)
    requires LockedStep(env, s, s', i)
    ensures OnlyTask(s, s', i) && LockedMove(s, s', i, s'.tasks[i].phase)
  {
    LockedMoves(env, s, s', i);
  }

  lemma {:induction false} TaskFrame(env: Env, s: System, s': System, i: nat)
    requires TaskStep(env, s, s', i)
    ensures OnlyTask(s, s', i)
    ensures s'.tasks[i].phase.Finished? && s.tasks[i].kind == Reload(true) ==> s'.tasks[i].phase.outcome == Reloaded
  {
    match s.tasks[i].phase
    case Loading(_) =>
    case Looking(_, _) =>
    case Parsing(_, _) =>
    case Retaining =>
    case Waiting =>
    case _ => LockedFrame(env, s, s', i);
  }

  /** Tasks never disappear, finished ones never change, and a forced one finishes by reloading. */
  lemma {:induction false} StepFrame(env: Env, s: System, s': System)
    requires Next(env, s, s')
    ensures Grows(s.history, s'.history) && |s.tasks| <= |s'.tasks|
    ensures forall t :: 0 <= t < |s.tasks| && s.tasks[t].phase.Finished? ==> s'.tasks[t] == s.tasks[t]
    ensures forall t :: 0 <= t < |s.tasks| ==> s'.tasks[t].kind == s.tasks[t].kind
    ensures forall t :: 0 <= t < |s.tasks| && s.tasks[t].kind == Reload(true) ==>
              s.tasks[t].phase.Finished? || !s'.tasks[t].phase.Finished? || s'.tasks[t].phase.outcome == Reloaded
    ensures forall t :: |s.tasks| <= t < |s'.tasks| ==> !s'.tasks[t].phase.Finished?
  {
    if i :| TaskStep(env, s, s', i) {
      TaskFrame(env, s, s', i);
    } else if kind, snap :| Spawn(s, s', kind, snap) {
    }
  }

  // -------------------------------------------------------------------------
  // Every step keeps the invariant
  // -------------------------------------------------------------------------

  lemma {:induction false} CollisionFreeEarlier(env: Env, g: History, h: History)
    requires Grows(g, h) && NoCollisions(env, h)
    ensures NoCollisions(env, g)
  {
  }

  /** Steps outside the critical section: task `i` moves on, the engine does not notice. */
  lemma {:induction false} OutsideStepKeeps(env: Env, s: System, s': System, i: nat)
    requires Inv(env, s) && i < |s.tasks| && |s'.tasks| == |s.tasks|
    requires !Locked(s.tasks[i].phase) && !Locked(s'.tasks[i].phase)
    requires forall j :: 0 <= j < |s.tasks| && j != i ==> s'.tasks[j] == s.tasks[j]
    requires s'.fingerprint == s.fingerprint && s'.holder == s.holder && s'.rules == s.rules && s'.seeded == s.seeded
    requires Grows(s.history, s'.history) && Closed(s'.history)
    requires EntriesSound(env, s'.parsed, s'.history.texts)
    requires TaskInv(env, s'.history, s'.tasks[i])
    ensures Inv(env, s')
  {
  }

  /** A task that read, skipped or ran out of sources is still in step with its history. */
  lemma {:induction false} ReadTaskInv(env: Env, h: History, t: Task, content: string)
    requires TaskInv(env, h, t) && t.phase.Loading?
    ensures var k := t.phase.k;
      if k >= |t.snap.sources| then
          TaskInv(env, h, t.(phase := if t.kind.Report? then Finished(Reported) else Retaining))
      else if !t.snap.sources[k].enabled then TaskInv(env, h, t.(phase := Loading(k + 1)))
      else TaskInv(env, h.(texts := h.texts + {content}), t.(phase := Looking(k, content)))
  {
    var k := t.phase.k;
    if k < |t.snap.sources| {
      EnabledSourcesSnoc(t.snap.sources, k);
    } else {
      assert t.snap.sources[..k] == t.snap.sources;
    }
  }

  lemma {:induction false} MovesOutside(env: Env, s: System, i: nat, t': Task)
    requires Inv(env, s) && i < |s.tasks| && !Locked(s.tasks[i].phase) && !Locked(t'.phase)
    requires TaskInv(env, s.history, t')
    ensures Inv(env, Put(s, i, t'))
  {
    OutsideStepKeeps(env, s, Put(s, i, t'), i);
  }

  lemma {:induction false} ReadsText(env: Env, s: System, i: nat, t': Task, content: string)
    requires Inv(env, s) && i < |s.tasks| && !Locked(s.tasks[i].phase) && !Locked(t'.phase)
    requires TaskInv(env, s.history.(texts := s.history.texts + {content}), t')
    ensures Inv(env, Put(s, i, t').(history := s.history.(texts := s.history.texts + {content})))
  {
    OutsideStepKeeps(env, s, Put(s, i, t').(history := s.history.(texts := s.history.texts + {content})), i);
  }

  lemma {:induction false} ReadKeeps(env: Env, s: System, s': System, i: nat)
    requires Inv(env, s) && i < |s.tasks| && s.tasks[i].phase.Loading? && ReadStep(env, s, s', i)
    ensures Inv(env, s')
  {
    var t, k := s.tasks[i], s.tasks[i].phase.k;
    if k >= |t.snap.sources| {
      ReadTaskInv(env, s.history, t, "");
      MovesOutside(env, s, i, t.(phase := if t.kind.Report? then Finished(Reported) else Retaining));
    } else if !t.snap.sources[k].enabled {
      ReadTaskInv(env, s.history, t, "");
      MovesOutside(env, s, i, t.(phase := Loading(k + 1)));
    } else {
      var content :| content in {CacheText(s.disk, t.snap.sources[k].id), ""}
        && s' == Put(s, i, t.(phase := Looking(k, content)))
              .(history := s.history.(texts := s.history.texts + {content}));
      ReadTaskInv(env, s.history, t, content);
      ReadsText(env, s, i, t.(phase := Looking(k, content)), content);
    }
  }

  /** Reading one more source keeps the history in step with what is loaded. */
  lemma {:induction false} ExtendKeeps(env: Env, h: History, t: Task, content: string, k: nat)
    requires TaskInv(env, h, t) && (t.phase.Looking? || t.phase.Parsing?)
    requires k == t.phase.k && content == t.phase.content
    ensures TaskInv(env, h, Extend(env, t, content, env.parse(content), k))
  {
    var t' := Extend(env, t, content, env.parse(content), k);
    var c := Cached(t.snap.sources[k], content);
    EnabledSourcesSnoc(t.snap.sources, k);
    assert LoadAll(env, t.caches + [c]) == LoadAll(env, t.caches) + [Load(env, c)];
    assert SourcesRead(t.caches + [c]) == SourcesRead(t.caches) + [c.source];
    ContentsSnoc(t.snap.enabled, t.caches, c, t.snap.whitelist);
  }

  lemma {:induction false} ContentsSnoc(enabled: bool, caches: seq<Cached>, c: Cached, whitelist: seq<string>)
    ensures Contents(Reading(enabled, caches + [c], whitelist))
        == Contents(Reading(enabled, caches, whitelist)) + {c.content}
  {
    assert forall x :: x in caches + [c] <==> x in caches || x == c;
  }

  lemma {:induction false} LookKeeps(env: Env, s: System, s': System, i: nat)
    requires Inv(env, s) && NoCollisions(env, s.history)
    requires i < |s.tasks| && s.tasks[i].phase.Looking? && LookStep(env, s, s', i)
    ensures Inv(env, s')
  {
    var t := s.tasks[i];
    var k, content := t.phase.k, t.phase.content;
    LookupIsParse(env, s.parsed, s.history.texts, t.snap.sources[k].id, content);
    ExtendKeeps(env, s.history, t, content, k);
    OutsideStepKeeps(env, s, s', i);
  }

  lemma {:induction false} ParseKeeps(env: Env, s: System, s': System, i: nat)
    requires Inv(env, s) && i < |s.tasks| && s.tasks[i].phase.Parsing? && ParseStep(env, s, s', i)
    ensures Inv(env, s')
  {
    var t := s.tasks[i];
    ExtendKeeps(env, s.history, t, t.phase.content, t.phase.k);
    OutsideStepKeeps(env, s, s', i);
  }

  lemma {:induction false} RetainKeeps(env: Env, s: System, s': System, i: nat)
    requires Inv(env, s) && i < |s.tasks| && s.tasks[i].phase.Retaining? && RetainStep(s, s', i)
    ensures Inv(env, s')
  {
    OutsideStepKeeps(env, s, s', i);
  }

  lemma {:induction false} AcquireKeeps(env: Env, s: System, s': System, i: nat)
    requires Inv(env, s) && i < |s.tasks| && s.tasks[i].phase.Waiting? && TaskStep(env, s, s', i)
    ensures Inv(env, s')
  {
  }

  /** Only the holder moves, and it gives up the lock exactly when it leaves the section. */
  lemma {:induction false} HolderMoves(env: Env, s: System, s': System, i: nat, t': Task)
    requires Inv(env, s) && i < |s.tasks| && s.holder == Some(i) && s'.tasks == s.tasks[i := t']
    requires s'.holder == if Locked(t'.phase) then Some(i) else None
    requires s'.history == s.history && s'.parsed == s.parsed
    requires TaskInv(env, s.history, t') && EngineInv(env, s')
    ensures Inv(env, s')
  {
  }

  /** What the invariant says about the task in the critical section. */
  lemma {:induction false} HolderKnows(env: Env, s: System, i: nat)
    requires Inv(env, s) && i < |s.tasks| && Locked(s.tasks[i].phase)
    ensures s.holder == Some(i) && EngineInv(env, s) && TaskInv(env, s.history, s.tasks[i])
    ensures InputsOfTask(env, s.tasks[i]) == InputsOf(env, ReadingOfTask(s.tasks[i]))
  {
    assert TaskInv(env, s.history, s.tasks[i]);
    TaskInputsAreRecomputed(env, s.tasks[i]);
  }

  lemma {:induction false} LockedTaskInv(env: Env, h: History, t: Task, p: Phase)
    requires TaskInv(env, h, t) && Locked(t.phase) && t.kind.Reload? && (Locked(p) || p.Finished?)
    ensures TaskInv(env, h, t.(phase := p))
  {
  }

  lemma {:induction false} LockedKeeps(env: Env, s: System, s': System, i: nat)
    requires Inv(env, s) && i < |s.tasks| && s.tasks[i].kind.Reload? && Locked(s.tasks[i].phase)
    requires LockedStep(env, s, s', i)
    ensures Inv(env, s')
  {
    HolderKnows(env, s, i);
    LockedMoves(env, s, s', i);
    LockedTaskInv(env, s.history, s.tasks[i], s'.tasks[i].phase);
    LockedEngine(env, s, s', i);
    HolderMoves(env, s, s', i, s'.tasks[i]);
  }

  /** The engine is rebuilt from the very inputs the label will name. */
  lemma {:induction false} RebuildEngine(env: Env, s: System, s': System, i: nat)
    requires EngineInv(env, s) && i < |s.tasks| && s.tasks[i].kind.Reload? && s.tasks[i].phase.Rebuilding?
    requires s.holder == Some(i) && LockedStep(env, s, s', i)
    requires InputsOfTask(env, s.tasks[i]) == InputsOf(env, ReadingOfTask(s.tasks[i]))
    ensures EngineInv(env, s')
  {
    var r := ReadingOfTask(s.tasks[i]);
    assert ReadingOfTask(s'.tasks[i]) == r && s'.holder == Some(i) && s'.tasks[i].phase.Recording?;
    assert s'.rules == RebuildOf(env, r);
  }

  lemma {:induction false} RecordEngine(env: Env, s: System, s': System, i: nat)
    requires EngineInv(env, s) && i < |s.tasks| && s.tasks[i].kind.Reload? && s.tasks[i].phase.Recording?
    requires s.holder == Some(i) && LockedStep(env, s, s', i)
    requires ReadingOfTask(s.tasks[i]) in s.history.readings
    requires InputsOfTask(env, s.tasks[i]) == InputsOf(env, ReadingOfTask(s.tasks[i]))
    ensures EngineInv(env, s')
  {
    var r := ReadingOfTask(s.tasks[i]);
    assert s'.holder == None && s'.history == s.history && s'.rules == RebuildOf(env, r);
    assert r in s'.history.readings && s'.fingerprint == Some(FingerprintOf(env, r));
  }

  /** Comparing and asking for cancellation leave engine and label alone, mirroring copies the
      switch. */
  lemma {:induction false} EarlyEngine(env: Env, s: System, s': System, i: nat)
    requires EngineInv(env, s) && i < |s.tasks| && s.tasks[i].kind.Reload?
    requires s.tasks[i].phase.Comparing? || s.tasks[i].phase.CheckingCancel? || s.tasks[i].phase.Mirroring?
    requires s.holder == Some(i) && LockedStep(env, s, s', i)
    ensures EngineInv(env, s')
  {
    assert s'.fingerprint == s.fingerprint && s'.history == s.history && s'.seeded == s.seeded;
    if s.tasks[i].phase.Mirroring? {
      assert s'.tasks[i].phase.Rebuilding? && s'.rules.enabled == s'.tasks[i].snap.enabled;
    } else {
      assert s'.rules == s.rules;
    }
  }

  lemma {:induction false} LockedEngine(env: Env, s: System, s': System, i: nat)
    requires EngineInv(env, s) && i < |s.tasks| && s.tasks[i].kind.Reload? && Locked(s.tasks[i].phase)
    requires s.holder == Some(i) && ReadingOfTask(s.tasks[i]) in s.history.readings
    requires InputsOfTask(env, s.tasks[i]) == InputsOf(env, ReadingOfTask(s.tasks[i]))
    requires LockedStep(env, s, s', i)
    ensures EngineInv(env, s')
  {
    match s.tasks[i].phase
    case Rebuilding => RebuildEngine(env, s, s', i);
    case Recording => RecordEngine(env, s, s', i);
    case _ => EarlyEngine(env, s, s', i);
  }

  lemma {:induction false} TaskStepKeeps(env: Env, s: System, s': System, i: nat)
    requires Inv(env, s) && NoCollisions(env, s.history) && TaskStep(env, s, s', i)
    ensures Inv(env, s')
  {
    match s.tasks[i].phase
    case Loading(_) => ReadKeeps(env, s, s', i);
    case Looking(_, _) => LookKeeps(env, s, s', i);
    case Parsing(_, _) => ParseKeeps(env, s, s', i);
    case Retaining => RetainKeeps(env, s, s', i);
    case Waiting => AcquireKeeps(env, s, s', i);
    case Finished(_) =>
    case _ => LockedKeeps(env, s, s', i);
  }

  lemma {:induction false} SpawnKeeps(env: Env, s: System, s': System, kind: Kind, snap: AdBlockState)
    requires Inv(env, s) && Spawn(s, s', kind, snap)
    ensures Inv(env, s')
  {
    var t := Task(kind, snap, StartPhase(kind, snap), [], []);
    assert snap.sources[..0] == [];
    assert TaskInv(env, s.history, t);
  }

  lemma {:induction false} NextKeeps(env: Env, s: System, s': System)
    requires Inv(env, s) && NoCollisions(env, s.history) && Next(env, s, s')
    ensures Inv(env, s')
  {
    if i :| TaskStep(env, s, s', i) {
      TaskStepKeeps(env, s, s', i);
    } else if kind, snap :| Spawn(s, s', kind, snap) {
      SpawnKeeps(env, s, s', kind, snap);
    }
  }

  lemma {:induction false} HistoryGrowsAlongRun(env: Env, run: seq<System>, i: nat, j: nat)
    requires Run(env, run) && i <= j < |run|
    ensures Grows(run[i].history, run[j].history)
  {
    if i < j {
      HistoryGrowsAlongRun(env, run, i, j - 1);
      RunStepGrows(env, run, j - 1);
    }
  }

  lemma {:induction false} RunStepGrows(env: Env, run: seq<System>, i: nat)
    requires Run(env, run) && i + 1 < |run|
    ensures Grows(run[i].history, run[i + 1].history)
  {
    assert StepAt(env, run, i);
    StepFrame(env, run[i], run[i + 1]);
  }

  lemma {:induction false} RunKeepsInvariant(env: Env, run: seq<System>, i: nat)
    requires Run(env, run) && i < |run|
    requires NoCollisions(env, run[|run| - 1].history)
    ensures Inv(env, run[i])
  {
    if i > 0 {
      RunKeepsInvariant(env, run, i - 1);
      HistoryGrowsAlongRun(env, run, i - 1, |run| - 1);
      CollisionFreeEarlier(env, run[i - 1].history, run[|run| - 1].history);
      assert StepAt(env, run, i - 1);
      NextKeeps(env, run[i - 1], run[i]);
    }
  }

  // -------------------------------------------------------------------------
  // What holds in every run in which the two hashes do not collide
  // -------------------------------------------------------------------------

  /** Whenever nobody is inside the critical section, a recorded label names a reading whose
      full rebuild is exactly what the engine holds. */
  lemma {:induction false} LabelTellsTheTruth(env: Env, run: seq<System>, i: nat)
    requires Run(env, run) && i < |run| && NoCollisions(env, run[|run| - 1].history)
    requires run[i].seeded && run[i].holder == None
    ensures LabelAgrees(env, run[i].history, run[i].fingerprint, run[i].rules)
  {
    RunKeepsInvariant(env, run, i);
  }

  lemma {:induction false} SkipStep(env: Env, s: System, s': System, t: nat)
    requires TaskStep(env, s, s', t)
    requires s.tasks[t].phase.Comparing? && s'.tasks[t].phase == Finished(Skipped)
    ensures s'.rules == s.rules && s.fingerprint == Some(InputsOfTask(env, s.tasks[t]).fingerprint)
    ensures ReadingOfTask(s'.tasks[t]) == ReadingOfTask(s.tasks[t])
  {
    assert s' == Release(s, t, Skipped);
  }

  /** A task that skips its reload leaves the engine with exactly the rules that rebuilding
      from what it read, with no cache and no gate, would have installed. */
  lemma {:induction false} SkipEqualsRebuild(env: Env, run: seq<System>, i: nat, t: nat)
    requires Run(env, run) && i + 1 < |run| && NoCollisions(env, run[|run| - 1].history)
    requires TaskStep(env, run[i], run[i + 1], t)
    requires run[i].tasks[t].phase.Comparing? && run[i + 1].tasks[t].phase == Finished(Skipped)
    requires run[i].seeded
    ensures run[i + 1].rules == RebuildOf(env, ReadingOfTask(run[i + 1].tasks[t]))
  {
    SkipStep(env, run[i], run[i + 1], t);
    RunKeepsInvariant(env, run, i);
    HistoryGrowsAlongRun(env, run, i, |run| - 1);
    CollisionFreeEarlier(env, run[i].history, run[|run| - 1].history);
    ComparingAgrees(env, run[i], t);
  }

  lemma {:induction false} ComparingAgrees(env: Env, s: System, t: nat)
    requires Inv(env, s) && NoCollisions(env, s.history) && t < |s.tasks| && s.tasks[t].phase.Comparing? && s.seeded
    requires s.fingerprint == Some(InputsOfTask(env, s.tasks[t]).fingerprint)
    ensures s.rules == RebuildOf(env, ReadingOfTask(s.tasks[t]))
  {
    TaskInputsAreRecomputed(env, s.tasks[t]);
    assert s.holder == Some(t);
    MatchingLabelMeansCurrentRules(env, s.history, s.fingerprint, s.rules, ReadingOfTask(s.tasks[t]));
  }

  /** A task that reloads, forced or not, leaves the engine with the rebuild of what it read
      and the label of that reading, and the server counts as seeded from then on. */
  lemma {:induction false} ReloadEqualsRebuild(env: Env, run: seq<System>, i: nat, t: nat)
    requires Run(env, run) && i + 1 < |run| && NoCollisions(env, run[|run| - 1].history)
    requires t < |run[i].tasks| && TaskStep(env, run[i], run[i + 1], t)
    requires run[i].tasks[t].phase.Recording?
    ensures run[i + 1].rules == RebuildOf(env, ReadingOfTask(run[i + 1].tasks[t]))
    ensures run[i + 1].fingerprint == Some(FingerprintOf(env, ReadingOfTask(run[i + 1].tasks[t])))
    ensures run[i + 1].seeded && run[i + 1].tasks[t].phase == Finished(Reloaded)
  {
    RunKeepsInvariant(env, run, i);
    TaskInputsAreRecomputed(env, run[i].tasks[t]);
  }

  /** A forced task never skips and is never cancelled: its only way out is to install the rules. */
  lemma {:induction false} ForcedReloadInstalls(env: Env, run: seq<System>, i: nat, t: nat)
    requires Run(env, run) && i < |run|
    requires t < |run[i].tasks| && run[i].tasks[t].kind == Reload(true) && run[i].tasks[t].phase.Finished?
    ensures run[i].tasks[t].phase.outcome == Reloaded
  {
    if i > 0 {
      assert StepAt(env, run, i - 1);
      StepFrame(env, run[i - 1], run[i]);
      if t < |run[i - 1].tasks| && run[i - 1].tasks[t].phase.Finished? {
        ForcedReloadInstalls(env, run, i - 1, t);
      }
    }
  }

  /** The parse cache is invisible: what a finished load holds is the parse of what it read,
      for exactly the enabled sources in order, as if the gate had been empty. */
  lemma {:induction false} LoadsIgnoreTheCache(env: Env, run: seq<System>, i: nat, t: nat)
    requires Run(env, run) && i < |run| && NoCollisions(env, run[|run| - 1].history)
    requires t < |run[i].tasks| && !run[i].tasks[t].phase.Loading?
    requires !run[i].tasks[t].phase.Looking? && !run[i].tasks[t].phase.Parsing?
    ensures var task := run[i].tasks[t];
            && task.loaded == LoadAll(env, task.caches)
            && SourcesRead(task.caches)
                == (if task.kind.Report? || task.snap.enabled then EnabledSources(task.snap.sources) else [])
            && InputsOfTask(env, task) == InputsOf(env, ReadingOfTask(task))
  {
    RunKeepsInvariant(env, run, i);
    TaskInputsAreRecomputed(env, run[i].tasks[t]);
  }

  /** A reload that compares skips if and only if it is not forced and the label is the fingerprint of
      what it read. */
  lemma {:induction false} SkipsIff(env: Env, run: seq<System>, i: nat, t: nat)
    requires Run(env, run) && i + 1 < |run| && NoCollisions(env, run[|run| - 1].history)
    requires TaskStep(env, run[i], run[i + 1], t) && run[i].tasks[t].phase.Comparing?
    ensures run[i + 1].tasks[t].phase == Finished(Skipped)
       <==> !run[i].tasks[t].kind.force
            && run[i].fingerprint == Some(FingerprintOf(env, ReadingOfTask(run[i].tasks[t])))
  {
    RunKeepsInvariant(env, run, i);
    TaskInputsAreRecomputed(env, run[i].tasks[t]);
  }

  /** The check for a cancellation changes neither engine nor label; what it lets pass goes on, and
      a forced reload passes. */
  lemma {:induction false} CancelChangesNothing(env: Env, s: System, s': System, t: nat)
    requires TaskStep(env, s, s', t) && s.tasks[t].phase.CheckingCancel?
    ensures s'.rules == s.rules && s'.fingerprint == s.fingerprint && s'.seeded == s.seeded
    ensures t < |s'.tasks|
    ensures s'.tasks[t].phase == Mirroring
         || (s'.tasks[t].phase == Finished(Cancelled) && s'.holder == None && !s.tasks[t].kind.force)
  {
    LockedMoves(env, s, s', t);
  }

  /** The cache holds what it held for the enabled sources of this list, and nothing else. */
  ghost predicate KeptFor(before: ParseCache, after: ParseCache, sources: seq<Source>) {
    && (forall id :: id in after <==> id in before && exists x :: x in sources && x.enabled && x.id == id)
    && (forall id :: id in after ==> after[id] == before[id])
  }

  /** The parse cache is used and kept up: a text is parsed only if no parse of a text with its hash is
      there, the parse is stored, and a reload drops what belongs to no enabled source. */
  lemma {:induction false} CacheIsUsed(env: Env, s: System, s': System, t: nat)
    requires TaskStep(env, s, s', t)
    ensures t < |s'.tasks|
    ensures match s.tasks[t].phase
            case Looking(k, content) =>
              && k < |s.tasks[t].snap.sources| && s'.parsed == s.parsed
              && var id := s.tasks[t].snap.sources[k].id;
                 s'.tasks[t].phase == if id in s.parsed && s.parsed[id].contentHash == env.contentHash(content)
                                      then Loading(k + 1) else Parsing(k, content)
            case Parsing(k, content) =>
              k < |s.tasks[t].snap.sources|
              && s'.parsed == s.parsed[s.tasks[t].snap.sources[k].id :=
                                         ParsedSource(env.contentHash(content), env.parse(content))]
            case Retaining => KeptFor(s.parsed, s'.parsed, s.tasks[t].snap.sources)
            case _ => s'.parsed == s.parsed
  {
    if Locked(s.tasks[t].phase) {
      LockedMoves(env, s, s', t);
    }
  }

  // -------------------------------------------------------------------------
  // What was read
  // -------------------------------------------------------------------------

  /** Task `t` is about to read the cache file of an enabled source: its text, or nothing if the read
      fails. */
  ghost predicate ReadsFile(s: System, t: nat, source: Source, content: string) {
    && t < |s.tasks| && s.tasks[t].phase.Loading? && s.tasks[t].phase.k < |s.tasks[t].snap.sources|
    && s.tasks[t].snap.sources[s.tasks[t].phase.k] == source && source.enabled
    && content in {CacheText(s.disk, source.id), ""}
  }

  /** A text that a task has read for this source. */
  ghost predicate InHand(t: Task, source: Source, content: string) {
    || Cached(source, content) in t.caches
    || ((t.phase.Looking? || t.phase.Parsing?) && t.phase.content == content
        && t.phase.k < |t.snap.sources| && t.snap.sources[t.phase.k] == source)
  }

  lemma {:induction false} ReadHands(env: Env, s: System, s': System, t: nat, source: Source, content: string)
    requires t < |s.tasks| && s.tasks[t].phase.Loading? && ReadStep(env, s, s', t)
    requires t < |s'.tasks| && InHand(s'.tasks[t], source, content)
    ensures InHand(s.tasks[t], source, content) || ReadsFile(s, t, source, content)
  {
  }

  lemma {:induction false} KeptHands(env: Env, s: System, s': System, t: nat, source: Source, content: string)
    requires TaskStep(env, s, s', t) && !s.tasks[t].phase.Loading?
    requires t < |s'.tasks| && InHand(s'.tasks[t], source, content)
    ensures InHand(s.tasks[t], source, content)
  {
    if Locked(s.tasks[t].phase) {
      LockedMoves(env, s, s', t);
    }
  }

  lemma {:induction false} NextHands(env: Env, s: System, s': System, t: nat, source: Source, content: string)
    requires Next(env, s, s') && t < |s'.tasks| && InHand(s'.tasks[t], source, content)
    ensures t < |s.tasks| && (InHand(s.tasks[t], source, content) || ReadsFile(s, t, source, content))
  {
    if n :| TaskStep(env, s, s', n) {
      TaskFrame(env, s, s', n);
      if n == t {
        if s.tasks[t].phase.Loading? {
          ReadHands(env, s, s', t, source, content);
        } else {
          KeptHands(env, s, s', t, source, content);
        }
      }
    }
  }

  /** Everything a task has read was in the cache file of an enabled source of its snapshot when it
      read it, failed reads aside. */
  lemma {:induction false} ReadFromDisk(env: Env, run: seq<System>, i: nat, t: nat, source: Source, content: string)
    requires Run(env, run) && i < |run| && t < |run[i].tasks| && InHand(run[i].tasks[t], source, content)
    ensures exists j :: 0 <= j < i && ReadsFile(run[j], t, source, content)
  {
    assert i > 0;
    assert StepAt(env, run, i - 1);
    NextHands(env, run[i - 1], run[i], t, source, content);
    if InHand(run[i - 1].tasks[t], source, content) {
      ReadFromDisk(env, run, i - 1, t, source, content);
    } else {
      assert ReadsFile(run[i - 1], t, source, content);
    }
  }

  /** And a read may succeed: the step that takes the text of the file is always possible. */
  lemma {:induction false} ReadMaySucceed(env: Env, s: System, t: nat) returns (s': System)
    requires t < |s.tasks| && s.tasks[t].phase.Loading?
    requires s.tasks[t].phase.k < |s.tasks[t].snap.sources| && s.tasks[t].snap.sources[s.tasks[t].phase.k].enabled
    ensures var k := s.tasks[t].phase.k;
      TaskStep(env, s, s', t)
      && s'.tasks == s.tasks[t := s.tasks[t].(
           phase := Looking(k, CacheText(s.disk, s.tasks[t].snap.sources[k].id)))]
  {
    var task, k := s.tasks[t], s.tasks[t].phase.k;
    var content := CacheText(s.disk, task.snap.sources[k].id);
    s' := Put(s, t, task.(phase := Looking(k, content)))
            .(history := s.history.(texts := s.history.texts + {content}));
    assert content in {CacheText(s.disk, task.snap.sources[k].id), ""};
  }

  // -------------------------------------------------------------------------
  // Both endings happen
  // -------------------------------------------------------------------------

  ghost function Last(run: seq<System>): System
    requires run != []
  {
    run[|run| - 1]
  }

  lemma {:induction false} Longer(env: Env, run: seq<System>, s: System)
    requires Run(env, run) && Next(env, Last(run), s)
    ensures Run(env, run + [s]) && Last(run + [s]) == s
  {
    var run' := run + [s];
    forall i | 0 <= i < |run'| - 1 ensures StepAt(env, run', i) {
      if i < |run| - 1 {
        assert StepAt(env, run, i) && run'[i] == run[i] && run'[i + 1] == run[i + 1];
      } else {
        assert run'[i] == Last(run) && run'[i + 1] == s;
      }
    }
  }

  /** The lock is with the newest task exactly while it is in the critical section. */
  ghost predicate NewestAt(s: System, tasks: seq<Task>, t: Task) {
    s.tasks == tasks + [t] && s.holder == if Locked(t.phase) then Some(|tasks|) else None
  }

  lemma {:induction false} NewestMoves(s: System, tasks: seq<Task>, t: Task, p: Phase)
    requires NewestAt(s, tasks, t)
    ensures Put(s, |tasks|, t.(phase := p)).tasks == tasks + [t.(phase := p)]
  {
  }

  /** A reload with the master switch off reads nothing and gets as far as comparing. */
  lemma {:induction false} ReachComparing(env: Env, run: seq<System>, force: bool, snap: AdBlockState)
    returns (run': seq<System>)
    requires Run(env, run) && !snap.enabled && Last(run).holder == None
    ensures Run(env, run')
    ensures NewestAt(Last(run'), Last(run).tasks, Task(Reload(force), snap, Comparing, [], []))
    ensures Last(run').fingerprint == Last(run).fingerprint && Last(run').seeded == Last(run).seeded
    ensures Last(run').history
         == Last(run).history.(readings := Last(run).history.readings + {Reading(false, [], snap.whitelist)})
  {
    var tasks, i := Last(run).tasks, |Last(run).tasks|;
    var t := Task(Reload(force), snap, Retaining, [], []);
    var s := Last(run).(tasks := tasks + [t]);
    assert Spawn(Last(run), s, Reload(force), snap);
    Longer(env, run, s);
    run' := run + [s];
    NewestMoves(s, tasks, t, Waiting);
    s := Put(s, i, t.(phase := Waiting))
           .(parsed := Retained(s.parsed, EnabledIds(snap.sources)),
             history := s.history.(readings := s.history.readings + {ReadingOfTask(t)}));
    assert TaskStep(env, Last(run'), s, i);
    Longer(env, run', s);
    run' := run' + [s];
    NewestMoves(s, tasks, t.(phase := Waiting), Comparing);
    s := Put(s, i, t.(phase := Comparing)).(holder := Some(i));
    assert TaskStep(env, Last(run'), s, i);
    Longer(env, run', s);
    run' := run' + [s];
  }

  /** From there a forced reload can go on to the end. */
  lemma {:induction false} ReachReloaded(env: Env, run: seq<System>, tasks: seq<Task>, t: Task)
    returns (run': seq<System>)
    requires Run(env, run) && NewestAt(Last(run), tasks, t) && t.kind == Reload(true) && t.phase == Comparing
    ensures Run(env, run')
    ensures NewestAt(Last(run'), tasks, t.(phase := Finished(Reloaded)))
    ensures Last(run').fingerprint == Some(InputsOfTask(env, t).fingerprint) && Last(run').seeded
    ensures Last(run').history == Last(run).history
  {
    run' := ReachRebuilding(env, run, tasks, t);
    var i, u := |tasks|, t.(phase := Rebuilding);
    NewestMoves(Last(run'), tasks, u, Recording);
    var s := Put(Last(run'), i, u.(phase := Recording))
               .(rules := RulesOfInputs(InputsOfTask(env, u)).(enabled := Last(run').rules.enabled));
    assert TaskStep(env, Last(run'), s, i);
    Longer(env, run', s);
    run' := run' + [s];
    u := t.(phase := Recording);
    NewestMoves(s, tasks, u, Finished(Reloaded));
    s := Release(s, i, Reloaded).(fingerprint := Some(InputsOfTask(env, u).fingerprint), seeded := true);
    assert TaskStep(env, Last(run'), s, i);
    Longer(env, run', s);
    run' := run' + [s];
    assert InputsOfTask(env, u) == InputsOfTask(env, t);
  }

  lemma {:induction false} ReachRebuilding(env: Env, run: seq<System>, tasks: seq<Task>, t: Task)
    returns (run': seq<System>)
    requires Run(env, run) && NewestAt(Last(run), tasks, t) && t.kind == Reload(true) && t.phase == Comparing
    ensures Run(env, run') && NewestAt(Last(run'), tasks, t.(phase := Rebuilding))
    ensures Last(run').history == Last(run).history
  {
    var i := |tasks|;
    NewestMoves(Last(run), tasks, t, CheckingCancel);
    var s := Put(Last(run), i, t.(phase := CheckingCancel));
    assert TaskStep(env, Last(run), s, i);
    Longer(env, run, s);
    run' := run + [s];
    NewestMoves(s, tasks, t.(phase := CheckingCancel), Mirroring);
    s := Put(s, i, t.(phase := Mirroring));
    assert TaskStep(env, Last(run'), s, i);
    Longer(env, run', s);
    run' := run' + [s];
    NewestMoves(s, tasks, t.(phase := Mirroring), Rebuilding);
    s := Put(s, i, t.(phase := Rebuilding)).(rules := s.rules.(enabled := t.snap.enabled));
    assert TaskStep(env, Last(run'), s, i);
    Longer(env, run', s);
    run' := run' + [s];
  }

  /** A forced reload that installs its rules and a second one that finds them in place and skips:
      the situation `SkipEqualsRebuild` speaks of arises, whatever the two hashes are. */
  lemma {:induction false} SkipHappens(env: Env, snap: AdBlockState, s0: System) returns (run: seq<System>, i: nat)
    requires Init(s0) && !snap.enabled && Representable(KeyOf(env, Reading(false, [], snap.whitelist)))
    ensures Run(env, run) && i + 1 < |run| && NoCollisions(env, run[|run| - 1].history)
    ensures TaskStep(env, run[i], run[i + 1], 1) && run[i].seeded && run[i].tasks[0].phase == Finished(Reloaded)
    ensures run[i].tasks[1].phase.Comparing? && run[i + 1].tasks[1].phase == Finished(Skipped)
  {
    var t := Task(Reload(true), snap, Comparing, [], []);
    run := [s0];
    run := ReachComparing(env, run, true, snap);
    run := ReachReloaded(env, run, [], t);
    var tasks := Last(run).tasks;
    assert tasks == [t.(phase := Finished(Reloaded))];
    run := ReachComparing(env, run, false, snap);
    var u := Task(Reload(false), snap, Comparing, [], []);
    assert InputsOfTask(env, u) == InputsOfTask(env, t);
    NewestMoves(Last(run), tasks, u, Finished(Skipped));
    var s := Release(Last(run), 1, Skipped);
    assert TaskStep(env, Last(run), s, 1);
    Longer(env, run, s);
    i := |run| - 1;
    run := run + [s];
  }
}
