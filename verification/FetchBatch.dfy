/** Overlapping batches of refreshes: permits, per-source gates and the state lock, lock operation
    by lock operation. Every batch stays within its permits, no state is a deadlock, and every
    schedule ends with each submitted id refreshed exactly once. */
module FetchBatch {
  import opened Base
  import opened AdBlockModel

  /** Where one spawned refresh stands. It holds its batch's permit until `Finished`, the gate map's
      lock in `InMap`, its source's gate from `NeedsRead` to `InWrite`, and the state lock in
      `InRead`, `InWrite` and `InErrorWrite`. */
  datatype Phase =
    | NeedsMap | InMap | NeedsGate
    | NeedsRead | InRead | Fetching
    | NeedsWrite(ok: bool) | InWrite(ok: bool)
    | NeedsErrorWrite | InErrorWrite
    | Finished

  /** The refresh of the id at position `slot` of its batch; `entries` counts how often it has
      entered its source's gate. */
  datatype Job = Job(batch: nat, slot: nat, id: SourceId, phase: Phase, entries: nat)

  /** `handles` are the spawned refreshes, in submission order. */
  datatype Batch = Batch(ids: seq<SourceId>, permits: nat, handles: seq<nat>, joined: nat)

  datatype World = World(
    batches: seq<Batch>,
    jobs: seq<Job>,
    mapHolder: Option<nat>,
    gates: map<SourceId, nat>,
    readers: set<nat>,
    writer: Option<nat>)

  /** `ok` is what the move learns: whether the record is there, or whether the fetch succeeded. */
  datatype Action =
    | Start(ids: seq<SourceId>, concurrency: nat)
    | Submit(b: nat)
    | Move(i: nat, ok: bool)
    | Join(b: nat)

  const IDLE := World([], [], None, map[], {}, None)

  // -------------------------------------------------------------------------
  // Counting
  // -------------------------------------------------------------------------

  function Total<T>(weigh: T -> nat, s: seq<T>): nat {
    if s == [] then 0 else weigh(s[0]) + Total(weigh, s[1..])
  }

  lemma {:induction false} TotalUpdate<T>(weigh: T -> nat, s: seq<T>, i: nat, x: T)
    requires i < |s|
    ensures Total(weigh, s[i := x]) == Total(weigh, s) - weigh(s[i]) + weigh(x)
  {
    if i == 0 {
      assert s[i := x][1..] == s[1..];
    } else {
      assert s[i := x][1..] == s[1..][i - 1 := x];
      TotalUpdate(weigh, s[1..], i - 1, x);
    }
  }

  lemma {:induction false} TotalSnoc<T>(weigh: T -> nat, s: seq<T>, x: T)
    ensures Total(weigh, s + [x]) == Total(weigh, s) + weigh(x)
  {
    if s == [] {
      assert [x][1..] == [];
    } else {
      assert (s + [x])[1..] == s[1..] + [x];
      TotalSnoc(weigh, s[1..], x);
    }
  }

  /** Somebody accounts for a positive total. */
  lemma {:induction false} TotalWitness<T>(weigh: T -> nat, s: seq<T>) returns (i: nat)
    requires Total(weigh, s) > 0
    ensures i < |s| && weigh(s[i]) > 0
  {
    if weigh(s[0]) > 0 {
      i := 0;
    } else {
      i := TotalWitness(weigh, s[1..]);
      i := i + 1;
    }
  }

  lemma {:induction false} TotalZero<T>(weigh: T -> nat, s: seq<T>)
    requires forall i :: 0 <= i < |s| ==> weigh(s[i]) == 0
    ensures Total(weigh, s) == 0
  {
    if s != [] {
      TotalZero(weigh, s[1..]);
    }
  }

  /** One per permit of batch `b` still out. */
  function Holding(b: nat): Job -> nat {
    (j: Job) => if j.batch == b && j.phase != Finished then 1 else 0
  }

  function PermitsOut(w: World, b: nat): nat {
    Total(Holding(b), w.jobs)
  }

  // -------------------------------------------------------------------------
  // Steps
  // -------------------------------------------------------------------------

  predicate HoldsGate(p: Phase) {
    p.NeedsRead? || p.InRead? || p.Fetching? || p.NeedsWrite? || p.InWrite?
  }

  predicate Writes(p: Phase) {
    p.InWrite? || p.InErrorWrite?
  }

  predicate Ready(w: World, i: nat)
    requires i < |w.jobs|
  {
    match w.jobs[i].phase
    case NeedsMap => w.mapHolder == None
    case NeedsGate => w.jobs[i].id !in w.gates
    case NeedsRead => w.writer == None
    case NeedsWrite(_) => w.writer == None && w.readers == {}
    case NeedsErrorWrite => w.writer == None && w.readers == {}
    case Finished => false
    case _ => true
  }

  predicate MaySubmit(w: World, b: nat) {
    b < |w.batches| && |w.batches[b].handles| < |w.batches[b].ids| && PermitsOut(w, b) < w.batches[b].permits
  }

  predicate MayJoin(w: World, b: nat) {
    && b < |w.batches| && |w.batches[b].handles| == |w.batches[b].ids| && w.batches[b].joined < |w.batches[b].ids|
    && w.batches[b].handles[w.batches[b].joined] < |w.jobs|
    && w.jobs[w.batches[b].handles[w.batches[b].joined]].phase == Finished
  }

  /** A batch submits while a permit is left, then joins its refreshes in submission order. */
  predicate Enabled(w: World, a: Action) {
    match a
    case Start(_, _) => true
    case Submit(b) => MaySubmit(w, b)
    case Move(i, _) => i < |w.jobs| && Ready(w, i)
    case Join(b) => MayJoin(w, b)
  }

  function After(p: Phase, ok: bool): Phase {
    match p
    case NeedsMap => InMap
    case InMap => NeedsGate
    case NeedsGate => NeedsRead
    case NeedsRead => InRead
    case InRead => if ok then Fetching else NeedsErrorWrite
    case Fetching => NeedsWrite(ok)
    case NeedsWrite(fetched) => InWrite(fetched)
    case InWrite(fetched) => if fetched then Finished else NeedsErrorWrite
    case NeedsErrorWrite => InErrorWrite
    case InErrorWrite => Finished
    case Finished => Finished
  }

  function Without(m: map<SourceId, nat>, id: SourceId): map<SourceId, nat> {
    map k | k in m && k != id :: m[k]
  }

  /** One lock operation, lookup or fetch of refresh `i`. */
  function Moved(w: World, i: nat, ok: bool): World
    requires i < |w.jobs|
  {
    var j := w.jobs[i];
    var p' := After(j.phase, ok);
    var entered := if j.phase.NeedsGate? then j.entries + 1 else j.entries;
    var jobs' := w.jobs[i := j.(phase := p', entries := entered)];
    World(w.batches, jobs',
          if p'.InMap? then Some(i) else if j.phase.InMap? then None else w.mapHolder,
          if HoldsGate(p') then w.gates[j.id := i] else if HoldsGate(j.phase) then Without(w.gates, j.id) else w.gates,
          if p'.InRead? then w.readers + {i} else w.readers - {i},
          if Writes(p') then Some(i) else if Writes(j.phase) then None else w.writer)
  }

  function Step(w: World, a: Action): World
    requires Enabled(w, a)
  {
    match a
    case Start(ids, concurrency) =>
      if ids == [] then w
      else w.(batches := w.batches + [Batch(ids, if concurrency < 1 then 1 else concurrency, [], 0)])
    case Submit(b) =>
      var t := w.batches[b];
      w.(batches := w.batches[b := t.(handles := t.handles + [|w.jobs|])],
         jobs := w.jobs + [Job(b, |t.handles|, t.ids[|t.handles|], NeedsMap, 0)])
    case Move(i, ok) => Moved(w, i, ok)
    case Join(b) =>
      var t := w.batches[b];
      w.(batches := w.batches[b := t.(joined := t.joined + 1)])
  }

  ghost predicate StepAt(run: seq<World>, actions: seq<Action>, k: nat) {
    k < |actions| && k + 1 < |run| && Enabled(run[k], actions[k]) && run[k + 1] == Step(run[k], actions[k])
  }

  ghost predicate Run(run: seq<World>, actions: seq<Action>) {
    |run| == |actions| + 1 && run[0] == IDLE && forall k :: 0 <= k < |actions| ==> StepAt(run, actions, k)
  }

  // -------------------------------------------------------------------------
  // Invariant
  // -------------------------------------------------------------------------

  predicate PastGate(p: Phase) {
    HoldsGate(p) || p.NeedsErrorWrite? || p.InErrorWrite? || p.Finished?
  }

  ghost predicate JobInv(w: World, i: nat)
    requires i < |w.jobs|
  {
    var j := w.jobs[i];
    && (j.phase.InMap? <==> w.mapHolder == Some(i))
    && (HoldsGate(j.phase) <==> j.id in w.gates && w.gates[j.id] == i)
    && (j.phase.InRead? <==> i in w.readers)
    && (Writes(j.phase) <==> w.writer == Some(i))
    && j.entries == if PastGate(j.phase) then 1 else 0
  }

  ghost predicate LockInv(w: World) {
    && (w.mapHolder.Some? ==> w.mapHolder.value < |w.jobs|)
    && (forall id :: id in w.gates ==> w.gates[id] < |w.jobs| && w.jobs[w.gates[id]].id == id)
    && (forall i :: i in w.readers ==> i < |w.jobs|)
    && (w.writer.Some? ==> w.writer.value < |w.jobs| && w.readers == {})
  }

  /** A refresh belongs to the slot of the batch that points back at it. */
  ghost predicate SlotInv(w: World, i: nat)
    requires i < |w.jobs|
  {
    var j := w.jobs[i];
    j.batch < |w.batches| && j.slot < |w.batches[j.batch].handles| && w.batches[j.batch].handles[j.slot] == i
  }

  ghost predicate BatchInv(w: World, b: nat)
    requires b < |w.batches|
  {
    var t := w.batches[b];
    && 1 <= t.permits && t.joined <= |t.handles| <= |t.ids|
    && PermitsOut(w, b) <= t.permits
    && (forall k :: 0 <= k < |t.handles| ==> Serves(w, t.handles[k], b, k))
    && (t.joined > 0 ==> |t.handles| == |t.ids|)
    && (forall k :: 0 <= k < t.joined ==> t.handles[k] < |w.jobs| && w.jobs[t.handles[k]].phase == Finished)
  }

  ghost predicate Serves(w: World, i: nat, b: nat, k: nat) {
    && b < |w.batches| && k < |w.batches[b].ids| && i < |w.jobs|
    && w.jobs[i].batch == b && w.jobs[i].slot == k && w.jobs[i].id == w.batches[b].ids[k]
  }

  ghost predicate Inv(w: World) {
    && (forall i :: 0 <= i < |w.jobs| ==> JobInv(w, i) && SlotInv(w, i))
    && LockInv(w)
    && (forall b :: 0 <= b < |w.batches| ==> BatchInv(w, b))
  }

  // -------------------------------------------------------------------------
  // Every step keeps it
  // -------------------------------------------------------------------------

  lemma {:induction false} StartKeeps(w: World, ids: seq<SourceId>, concurrency: nat)
    requires Inv(w)
    ensures Inv(Step(w, Start(ids, concurrency)))
  {
    var w' := Step(w, Start(ids, concurrency));
    forall i | 0 <= i < |w'.jobs| ensures JobInv(w', i) && SlotInv(w', i) {
      assert JobInv(w, i) && SlotInv(w, i);
    }
    forall b | 0 <= b < |w'.batches| ensures BatchInv(w', b) {
      if b < |w.batches| {
        assert BatchInv(w, b);
        assert forall k :: 0 <= k < |w.batches[b].handles| ==> Serves(w, w.batches[b].handles[k], b, k);
      } else {
        NoPermitsYet(w, b);
      }
    }
  }

  /** No refresh belongs to a batch that does not exist yet. */
  lemma {:induction false} NoPermitsYet(w: World, b: nat)
    requires forall i :: 0 <= i < |w.jobs| ==> SlotInv(w, i)
    requires b >= |w.batches|
    ensures PermitsOut(w, b) == 0
  {
    forall i | 0 <= i < |w.jobs| ensures w.jobs[i].batch != b {
      assert SlotInv(w, i);
    }
    TotalZero(Holding(b), w.jobs);
  }

  lemma {:induction false} SubmitKeeps(w: World, b: nat)
    requires Inv(w) && MaySubmit(w, b)
    ensures Inv(Step(w, Submit(b)))
  {
    var w' := Step(w, Submit(b));
    forall i | 0 <= i < |w'.jobs| ensures JobInv(w', i) && SlotInv(w', i) {
      assert i < |w.jobs| ==> JobInv(w, i) && SlotInv(w, i);
    }
    forall c | 0 <= c < |w'.batches| ensures BatchInv(w', c) {
      assert BatchInv(w, c);
      TotalSnoc(Holding(c), w.jobs, w'.jobs[|w.jobs|]);
      forall k | 0 <= k < |w'.batches[c].handles| ensures Serves(w', w'.batches[c].handles[k], c, k) {
        assert k < |w.batches[c].handles| ==> Serves(w, w.batches[c].handles[k], c, k);
      }
    }
  }

  lemma {:induction false} JoinKeeps(w: World, b: nat)
    requires Inv(w) && MayJoin(w, b)
    ensures Inv(Step(w, Join(b)))
  {
    var w' := Step(w, Join(b));
    forall i | 0 <= i < |w'.jobs| ensures JobInv(w', i) && SlotInv(w', i) {
      assert JobInv(w, i) && SlotInv(w, i);
    }
    forall c | 0 <= c < |w'.batches| ensures BatchInv(w', c) {
      assert BatchInv(w, c);
      forall k | 0 <= k < |w'.batches[c].handles| ensures Serves(w', w'.batches[c].handles[k], c, k) {
        assert Serves(w, w.batches[c].handles[k], c, k);
      }
    }
  }

  /** The locks, when refresh `i` moves. */
  lemma {:induction false} MoveKeepsLocks(w: World, i: nat, ok: bool)
    requires Inv(w) && i < |w.jobs| && Ready(w, i)
    ensures LockInv(Moved(w, i, ok))
    ensures forall k :: 0 <= k < |w.jobs| ==> JobInv(Moved(w, i, ok), k)
  {
    var w' := Moved(w, i, ok);
    assert JobInv(w, i);
    forall k | 0 <= k < |w.jobs| ensures JobInv(w', k) {
      assert JobInv(w, k);
    }
  }

  lemma {:induction false} MoveKeeps(w: World, i: nat, ok: bool)
    requires Inv(w) && i < |w.jobs| && Ready(w, i)
    ensures Inv(Moved(w, i, ok))
  {
    var w' := Moved(w, i, ok);
    MoveKeepsLocks(w, i, ok);
    forall k | 0 <= k < |w'.jobs| ensures SlotInv(w', k) {
      assert SlotInv(w, k);
    }
    forall b | 0 <= b < |w'.batches| ensures BatchInv(w', b) {
      assert BatchInv(w, b);
      TotalUpdate(Holding(b), w.jobs, i, w'.jobs[i]);
      forall k | 0 <= k < |w'.batches[b].handles| ensures Serves(w', w'.batches[b].handles[k], b, k) {
        assert Serves(w, w.batches[b].handles[k], b, k);
      }
    }
  }

  lemma {:induction false} RunKeepsInvariant(run: seq<World>, actions: seq<Action>, k: nat)
    requires Run(run, actions) && k < |run|
    ensures Inv(run[k])
  {
    if k > 0 {
      RunKeepsInvariant(run, actions, k - 1);
      assert StepAt(run, actions, k - 1);
      match actions[k - 1]
      case Start(ids, concurrency) => StartKeeps(run[k - 1], ids, concurrency);
      case Submit(b) => SubmitKeeps(run[k - 1], b);
      case Move(i, ok) => MoveKeeps(run[k - 1], i, ok);
      case Join(b) => JoinKeeps(run[k - 1], b);
    }
  }

  // -------------------------------------------------------------------------
  // Safety
  // -------------------------------------------------------------------------

  /** At most max(1, concurrency) refreshes of a batch are under way, and one per source. */
  lemma {:induction false} PermitsAndGates(run: seq<World>, actions: seq<Action>, k: nat, b: nat, i: nat, j: nat)
    requires Run(run, actions) && k < |run|
    ensures b < |run[k].batches| ==> PermitsOut(run[k], b) <= run[k].batches[b].permits
    ensures i < |run[k].jobs| && j < |run[k].jobs| && run[k].jobs[i].id == run[k].jobs[j].id ==>
              HoldsGate(run[k].jobs[i].phase) && HoldsGate(run[k].jobs[j].phase) ==> i == j
  {
    RunKeepsInvariant(run, actions, k);
    var w := run[k];
    assert b < |w.batches| ==> BatchInv(w, b);
    assert (i < |w.jobs| ==> JobInv(w, i)) && (j < |w.jobs| ==> JobInv(w, j));
  }

  /** The refreshes of batch `b` that have been submitted and are not finished. */
  ghost function Underway(jobs: seq<Job>, b: nat): set<nat> {
    set i: nat | i < |jobs| && jobs[i].batch == b && jobs[i].phase != Finished
  }

  lemma {:induction false} UnderwaySnoc(jobs: seq<Job>, j: Job, b: nat)
    ensures Underway(jobs + [j], b)
         == Underway(jobs, b) + if j.batch == b && j.phase != Finished then {|jobs|} else {}
    ensures |jobs| !in Underway(jobs, b)
  {
  }

  lemma {:induction false} PermitsAreUnderway(jobs: seq<Job>, b: nat)
    ensures Total(Holding(b), jobs) == |Underway(jobs, b)|
  {
    if jobs == [] {
      assert Underway(jobs, b) == {};
    } else {
      var front, last := jobs[..|jobs| - 1], jobs[|jobs| - 1];
      assert jobs == front + [last];
      PermitsAreUnderway(front, b);
      TotalSnoc(Holding(b), front, last);
      UnderwaySnoc(front, last, b);
    }
  }

  /** A batch keeps its ids and its permits. */
  lemma {:induction false} BatchStays(run: seq<World>, actions: seq<Action>, j: nat, k: nat, b: nat)
    requires Run(run, actions) && j <= k < |run| && b < |run[j].batches|
    ensures b < |run[k].batches|
    ensures run[k].batches[b].ids == run[j].batches[b].ids && run[k].batches[b].permits == run[j].batches[b].permits
  {
    if j < k {
      BatchStays(run, actions, j, k - 1, b);
      assert StepAt(run, actions, k - 1);
    }
  }

  /** A batch that is asked to run `concurrency` refreshes at a time, or one if none is asked for, has
      never more of them under way; and while fewer are and ids are left it may submit another one. */
  lemma {:induction false} ConcurrencyIsKept(run: seq<World>, actions: seq<Action>, k: nat, m: nat,
      ids: seq<SourceId>, concurrency: nat)
    requires Run(run, actions) && k < m < |run| && actions[k] == Start(ids, concurrency) && ids != []
    ensures var b, limit := |run[k].batches|, if concurrency > 1 then concurrency else 1;
      && b < |run[m].batches| && run[m].batches[b].ids == ids && |Underway(run[m].jobs, b)| <= limit
      && (|Underway(run[m].jobs, b)| < limit && |run[m].batches[b].handles| < |ids| ==> Enabled(run[m], Submit(b)))
  {
    var b := |run[k].batches|;
    assert StepAt(run, actions, k);
    BatchStays(run, actions, k + 1, m, b);
    RunKeepsInvariant(run, actions, m);
    assert BatchInv(run[m], b);
    PermitsAreUnderway(run[m].jobs, b);
  }

  predicate Returned(t: Batch) {
    t.joined == |t.ids|
  }

  /** When a batch returns, its refreshes are one per submitted id, in order, each finished after
      entering its source's gate exactly once. */
  lemma {:induction false} EachIdOnce(run: seq<World>, actions: seq<Action>, k: nat, b: nat)
    requires Run(run, actions) && k < |run| && b < |run[k].batches| && Returned(run[k].batches[b])
    ensures var w, t := run[k], run[k].batches[b];
      && |t.handles| == |t.ids| && NoDuplicates(t.handles)
      && (forall n :: 0 <= n < |t.ids| ==> t.handles[n] < |w.jobs| && w.jobs[t.handles[n]].id == t.ids[n])
      && (forall n :: 0 <= n < |t.ids| ==> w.jobs[t.handles[n]].phase == Finished && w.jobs[t.handles[n]].entries == 1)
      && (forall i :: 0 <= i < |w.jobs| && w.jobs[i].batch == b ==> i in t.handles)
  {
    RunKeepsInvariant(run, actions, k);
    var w, t := run[k], run[k].batches[b];
    assert BatchInv(w, b);
    forall n | 0 <= n < |t.handles| ensures Serves(w, t.handles[n], b, n) && JobInv(w, t.handles[n]) {
      assert Serves(w, t.handles[n], b, n);
      assert JobInv(w, t.handles[n]);
    }
    forall i | 0 <= i < |w.jobs| && w.jobs[i].batch == b ensures i in t.handles {
      assert SlotInv(w, i);
    }
  }

  // -------------------------------------------------------------------------
  // What a finished refresh has done
  // -------------------------------------------------------------------------

  /** At step `n` refresh `i` makes a move in phase `p` and learns `ok`. */
  ghost predicate Moves(run: seq<World>, actions: seq<Action>, n: nat, i: nat, p: Phase, ok: bool) {
    && n < |actions| && n < |run| && actions[n] == Move(i, ok) && i < |run[n].jobs| && run[n].jobs[i].phase == p
  }

  ghost predicate MovedBefore(run: seq<World>, actions: seq<Action>, k: nat, i: nat, p: Phase, ok: bool) {
    exists n :: 0 <= n < k && Moves(run, actions, n, i, p, ok)
  }

  ghost predicate HasPassed(run: seq<World>, actions: seq<Action>, k: nat, i: nat, p: Phase) {
    exists ok :: MovedBefore(run, actions, k, i, p, ok)
  }

  /** Through the lock of the gate map and into the gate. */
  ghost predicate HasEntered(run: seq<World>, actions: seq<Action>, k: nat, i: nat) {
    HasPassed(run, actions, k, i, InMap) && HasPassed(run, actions, k, i, NeedsGate)
  }

  /** The record was found, and the fetch succeeded or failed. */
  ghost predicate HasFetched(run: seq<World>, actions: seq<Action>, k: nat, i: nat, ok: bool) {
    MovedBefore(run, actions, k, i, InRead, true) && MovedBefore(run, actions, k, i, Fetching, ok)
  }

  ghost predicate HasFailed(run: seq<World>, actions: seq<Action>, k: nat, i: nat) {
    MovedBefore(run, actions, k, i, InRead, false) || HasFetched(run, actions, k, i, false)
  }

  /** One way or the other: it recorded a successful fetch, or its error. */
  ghost predicate HasEnded(run: seq<World>, actions: seq<Action>, k: nat, i: nat) {
    || (HasFetched(run, actions, k, i, true) && HasPassed(run, actions, k, i, InWrite(true)))
    || (HasFailed(run, actions, k, i) && HasPassed(run, actions, k, i, InErrorWrite))
  }

  ghost predicate Behind(run: seq<World>, actions: seq<Action>, k: nat, i: nat, p: Phase) {
    (PastGate(p) ==> HasEntered(run, actions, k, i)) &&
    match p
    case NeedsGate => HasPassed(run, actions, k, i, InMap)
    case Fetching => MovedBefore(run, actions, k, i, InRead, true)
    case NeedsWrite(ok) => HasFetched(run, actions, k, i, ok)
    case InWrite(ok) => HasFetched(run, actions, k, i, ok)
    case NeedsErrorWrite => HasFailed(run, actions, k, i)
    case InErrorWrite => HasFailed(run, actions, k, i)
    case Finished => HasEnded(run, actions, k, i)
    case _ => true
  }

  lemma {:induction false} BehindStays(run: seq<World>, actions: seq<Action>, k: nat, i: nat, p: Phase)
    requires Behind(run, actions, k, i, p)
    ensures Behind(run, actions, k + 1, i, p)
  {
    forall q, ok | MovedBefore(run, actions, k, i, q, ok) ensures MovedBefore(run, actions, k + 1, i, q, ok) {
      var n :| 0 <= n < k && Moves(run, actions, n, i, q, ok);
    }
  }

  lemma {:induction false} MoveHasPast(run: seq<World>, actions: seq<Action>, k: nat, i: nat, p: Phase, ok: bool)
    requires Behind(run, actions, k, i, p) && MovedBefore(run, actions, k, i, p, ok)
    ensures Behind(run, actions, k, i, After(p, ok))
  {
    assert HasPassed(run, actions, k, i, p);
  }

  lemma {:induction false} PhaseHasPast(run: seq<World>, actions: seq<Action>, k: nat, i: nat)
    requires Run(run, actions) && k < |run| && i < |run[k].jobs|
    ensures Behind(run, actions, k, i, run[k].jobs[i].phase)
  {
    if k > 0 {
      assert StepAt(run, actions, k - 1);
      if i < |run[k - 1].jobs| {
        var p := run[k - 1].jobs[i].phase;
        PhaseHasPast(run, actions, k - 1, i);
        BehindStays(run, actions, k - 1, i, p);
        if actions[k - 1].Move? && actions[k - 1].i == i {
          assert Moves(run, actions, k - 1, i, p, actions[k - 1].ok);
          MoveHasPast(run, actions, k, i, p, actions[k - 1].ok);
        }
      }
    }
  }

  /** A refresh that is finished has been in the gate and has recorded the success of its fetch, or
      else its error: that the source was not there, or that the fetch failed. */
  lemma {:induction false} FinishedHasRecorded(run: seq<World>, actions: seq<Action>, k: nat, i: nat)
    requires Run(run, actions) && k < |run| && i < |run[k].jobs| && run[k].jobs[i].phase == Finished
    ensures HasEntered(run, actions, k, i) && HasEnded(run, actions, k, i)
  {
    PhaseHasPast(run, actions, k, i);
  }

  // -------------------------------------------------------------------------
  // Progress
  // -------------------------------------------------------------------------

  /** Whatever an unfinished refresh waits for, it or the holder of the lock can move: locks are
      taken in the order permit, gate, state. */
  lemma {:induction false} SomeoneMoves(w: World, i: nat) returns (m: nat)
    requires Inv(w) && i < |w.jobs| && w.jobs[i].phase != Finished
    ensures m < |w.jobs| && Ready(w, m)
  {
    if Ready(w, i) {
      m := i;
    } else {
      assert JobInv(w, i);
      match w.jobs[i].phase
      case NeedsMap =>
        m := w.mapHolder.value;
        assert JobInv(w, m);
      case NeedsGate =>
        var holder := w.gates[w.jobs[i].id];
        assert JobInv(w, holder);
        if Ready(w, holder) {
          m := holder;
        } else {
          m := StateLockHolder(w);
        }
      case _ => m := StateLockHolder(w);
    }
  }

  lemma {:induction false} StateLockHolder(w: World) returns (m: nat)
    requires Inv(w) && (w.writer.Some? || w.readers != {})
    ensures m < |w.jobs| && Ready(w, m)
  {
    if w.writer.Some? {
      m := w.writer.value;
    } else {
      m :| m in w.readers;
    }
    assert JobInv(w, m);
  }

  /** No reachable state is a deadlock: while a batch has not returned, some step is possible that
      starts nothing new. */
  lemma {:induction false} NoDeadlock(run: seq<World>, actions: seq<Action>, k: nat, b: nat) returns (a: Action)
    requires Run(run, actions) && k < |run| && b < |run[k].batches| && !Returned(run[k].batches[b])
    ensures !a.Start? && Enabled(run[k], a)
  {
    RunKeepsInvariant(run, actions, k);
    var w, t := run[k], run[k].batches[b];
    assert BatchInv(w, b);
    if |t.handles| < |t.ids| {
      if PermitsOut(w, b) < t.permits {
        a := Submit(b);
      } else {
        var i := TotalWitness(Holding(b), w.jobs);
        var m := SomeoneMoves(w, i);
        a := Move(m, true);
      }
    } else {
      var i := t.handles[t.joined];
      assert Serves(w, i, b, t.joined);
      if w.jobs[i].phase == Finished {
        a := Join(b);
      } else {
        var m := SomeoneMoves(w, i);
        a := Move(m, true);
      }
    }
  }

  // -------------------------------------------------------------------------
  // Every schedule ends
  // -------------------------------------------------------------------------

  function StepsLeft(p: Phase): nat {
    match p
    case NeedsMap => 10
    case InMap => 9
    case NeedsGate => 8
    case NeedsRead => 7
    case InRead => 6
    case Fetching => 5
    case NeedsWrite(_) => 4
    case InWrite(_) => 3
    case NeedsErrorWrite => 2
    case InErrorWrite => 1
    case Finished => 0
  }

  const JOB_STEPS := (j: Job) => StepsLeft(j.phase)

  /** One submission, at most ten moves and one join for every id. */
  const BATCH_STEPS := (t: Batch) =>
    if |t.handles| <= |t.ids| && t.joined <= |t.ids|
    then 11 * (|t.ids| - |t.handles|) + (|t.ids| - t.joined)
    else 0

  function Remaining(w: World): nat {
    Total(JOB_STEPS, w.jobs) + Total(BATCH_STEPS, w.batches)
  }

  lemma {:induction false} SubmitDecreases(w: World, b: nat)
    requires Inv(w) && Enabled(w, Submit(b))
    ensures Remaining(Step(w, Submit(b))) < Remaining(w)
  {
    var w' := Step(w, Submit(b));
    assert BatchInv(w, b);
    TotalSnoc(JOB_STEPS, w.jobs, w'.jobs[|w.jobs|]);
    TotalUpdate(BATCH_STEPS, w.batches, b, w'.batches[b]);
  }

  lemma {:induction false} MoveDecreases(w: World, i: nat, ok: bool)
    requires Enabled(w, Move(i, ok))
    ensures Remaining(Step(w, Move(i, ok))) < Remaining(w)
  {
    var w' := Step(w, Move(i, ok));
    TotalUpdate(JOB_STEPS, w.jobs, i, w'.jobs[i]);
  }

  lemma {:induction false} JoinDecreases(w: World, b: nat)
    requires Inv(w) && Enabled(w, Join(b))
    ensures Remaining(Step(w, Join(b))) < Remaining(w)
  {
    var w' := Step(w, Join(b));
    assert BatchInv(w, b);
    TotalUpdate(BATCH_STEPS, w.batches, b, w'.batches[b]);
  }

  lemma {:induction false} StepDecreases(w: World, a: Action)
    requires Inv(w) && Enabled(w, a) && !a.Start?
    ensures Remaining(Step(w, a)) < Remaining(w)
  {
    match a
    case Submit(b) => SubmitDecreases(w, b);
    case Move(i, ok) => MoveDecreases(w, i, ok);
    case Join(b) => JoinDecreases(w, b);
  }

  /** From any state, a schedule that starts no new batch makes at most `Remaining` steps. */
  lemma {:induction false} SchedulesEnd(run: seq<World>, actions: seq<Action>, j: nat, k: nat)
    requires Run(run, actions) && j <= k < |run|
    requires forall n :: j <= n < k ==> !actions[n].Start?
    ensures k - j <= Remaining(run[j]) - Remaining(run[k])
  {
    if j < k {
      SchedulesEnd(run, actions, j, k - 1);
      assert StepAt(run, actions, k - 1);
      RunKeepsInvariant(run, actions, k - 1);
      StepDecreases(run[k - 1], actions[k - 1]);
    }
  }

  /** A batch of n ids is done within 12 n of its own and its refreshes' steps. */
  lemma {:induction false} StartCosts(w: World, ids: seq<SourceId>, concurrency: nat)
    ensures Remaining(Step(w, Start(ids, concurrency))) == Remaining(w) + 12 * |ids|
  {
    if ids != [] {
      var w' := Step(w, Start(ids, concurrency));
      TotalSnoc(BATCH_STEPS, w.batches, w'.batches[|w.batches|]);
    }
  }
}
