/** Writers, the group-commit leader, flushes and WAL rotation, interleaved step by step
    (`enqueue_slot`, `await_ticket_or_lead`, `lead_group_commit`, `commit_batch` and
    `rotate_locked` in src/storage/wal.rs; `flush_streaming` in src/storage/memtable.rs).

    Operations are numbered in ticket order from 0; those replayed when the process started
    come first.  The write fence is not a step of its own: it turns away writers that have not
    passed its check yet, and a writer that has passed may take its ticket at any later time.

    The SST files, their readers and the compactions are those of `Ssts`. */
module GroupCommit {
  import opened Basics
  import opened Lsm
  import opened Recovery
  import opened Segment
  import S = Ssts

  const MAX_LEADER_BATCHES := 16

  /** Who holds the flush lock. */
  datatype Flusher = Nobody | Anyone | Leading(t: nat)

  /** The memtable and the SSTs.  `hist` lists the memtable updates; operation `t` ends with
      update `ends[t]`; `busy`: a writer is applying one, under the group lock.  The updates
      before `kept` have left the memtable; `cut` is where a parked map ends; no update from
      `stored` on is in an SST. */
  datatype Mem = Mem(
    hist: seq<Layer>, ends: seq<nat>, busy: bool,
    active: Layer, parked: Option<Layer>, store: S.Store,
    kept: nat, cut: nat, stored: nat, flusher: Flusher)

  /** A WAL segment.  `base` is the first operation it can hold, `counter` the next record
      number, `synced` the frames a completed sync covers; `lost`: a sync has failed;
      `headless`: writing its header has failed.  `good` counts the leading records that are
      the operations from `base` on without a gap; no step depends on it. */
  datatype Seg = Seg(
    base: nat, frames: seq<Frame>, counter: nat, synced: nat, lost: bool, headless: bool, good: nat)

  /** How far a leader is with its batch. */
  datatype Stage = Drained | Flushed | Truncated | Ready | Written | Synced | Failed

  datatype Phase = Top | Work(stage: Stage, from: nat, to: nat)

  datatype Leader = Leader(done: nat, phase: Phase)

  /** The queue, the leader flag and the commit watermark.  A thread goes by the number of its
      operation.  `leaders` are the threads inside the commit loop; `announcing` have stepped
      down and not said so yet; `claiming` have taken up a vacancy and not the lead.  The first
      `replayed` operations were read from the log at the start; the first `floor` of them were
      durable then. */
  datatype Queue = Queue(
    drained: nat, active: bool, leaders: map<nat, Leader>,
    announcing: set<nat>, claiming: set<nat>, vacant: bool,
    completed: nat, failedFrom: Option<nat>, replayed: nat, floor: nat)

  /** `shadows`: segments that a truncation not yet synced may bring back. */
  datatype State = State(disk: seq<Layer>, mem: Mem, log: Seg, shadows: seq<Seg>, q: Queue)

  /** The updates of the first `t` operations. */
  function E(m: Mem, t: nat): (n: nat)
    requires t <= |m.ends|
  {
    if t == 0 then 0 else m.ends[t - 1]
  }

  /** What `await_ticket_or_lead` tells the writers: those below this number return `Ok`. */
  function Acked(q: Queue): (n: nat) {
    if q.failedFrom.Some? && q.failedFrom.value < q.completed then q.failedFrom.value else q.completed
  }

  /** The operations that must not be lost. */
  function Promised(q: Queue): (n: nat) {
    if Acked(q) > q.replayed then Acked(q) else q.floor
  }

  // ----- Steps

  datatype Action =
    | Begin                                   // a writer takes the group lock
    | Apply(l: Layer)                         // and applies one update
    | Enqueue                                 // takes its ticket, perhaps the lead, and lets go
    | Drain(t: nat) | Leave(t: nat) | StepDown(t: nat) | Announce(t: nat)
    | Consume(t: nat) | Claim(t: nat)
    | Park(who: Flusher) | FlushOk | FlushFail(landed: bool) | FlushNothing(t: nat)
    | Compact(c: S.Change)                    // a step of a compaction
    | Truncate(t: nat) | HeaderOk(t: nat) | HeaderFail(t: nat)
    | WriteOk(t: nat) | WriteFail(t: nat, k: nat, torn: bool) | Abort(t: nat)
    | SyncOk(t: nat) | SyncFail(t: nat)
    | Publish(t: nat)

  predicate At(q: Queue, t: nat, stage: Stage) {
    t in q.leaders && q.leaders[t].phase.Work? && q.leaders[t].phase.stage == stage
  }

  predicate AtTop(q: Queue, t: nat) {
    t in q.leaders && q.leaders[t].phase == Top
  }

  predicate CanWrite(q: Queue, t: nat) {
    At(q, t, Drained) || At(q, t, Ready)
  }

  /** A full compaction takes its number under the flush lock; every commit holds it. */
  predicate CanCompact(m: Mem, c: S.Change) {
    match c
    case StartFull => m.flusher == Nobody
    case StartPartial(_, _) => true
    case GiveUp => true
    case Commit => m.flusher == Nobody
    case Abort(_) => m.flusher == Nobody
    case _ => false
  }

  predicate Enabled(s: State, a: Action) {
    var q, m := s.q, s.mem;
    match a
    case Begin => !m.busy
    case Apply(l) => m.busy && l != map[]
    case Enqueue => m.busy && E(m, |m.ends|) < |m.hist|
    case Drain(t) => AtTop(q, t) && !m.busy && q.drained < |m.ends| && q.leaders[t].done < MAX_LEADER_BATCHES
    case Leave(t) => AtTop(q, t) && !m.busy && q.drained == |m.ends|
    case StepDown(t) => AtTop(q, t) && !m.busy && q.drained < |m.ends| && q.leaders[t].done >= MAX_LEADER_BATCHES
    case Announce(t) => t in q.announcing
    case Consume(t) => q.vacant && q.completed <= t < |m.ends|
    case Claim(t) => t in q.claiming && !m.busy
    case Park(who) => m.flusher == Nobody && m.active != map[] && who != Nobody
                      && (who.Leading? ==> At(q, who.t, Drained))
    case FlushOk => m.flusher != Nobody && m.parked.Some?
    case FlushFail(landed) => m.flusher != Nobody && m.parked.Some?
    case FlushNothing(t) => At(q, t, Drained) && m.flusher == Nobody && m.active == map[]
    case Compact(c) => S.Can(m.store, c) && CanCompact(m, c)
    case Truncate(t) => At(q, t, Flushed)
    case HeaderOk(t) => At(q, t, Truncated)
    case HeaderFail(t) => At(q, t, Truncated)
    case WriteOk(t) => CanWrite(q, t) && m.flusher != Leading(t)
    case WriteFail(t, k, torn) => CanWrite(q, t) && m.flusher != Leading(t)
                                  && k < q.leaders[t].phase.to - q.leaders[t].phase.from
    case Abort(t) => CanWrite(q, t) && m.flusher != Leading(t)
    case SyncOk(t) => At(q, t, Written)
    case SyncFail(t) => At(q, t, Written)
    case Publish(t) => At(q, t, Synced) || At(q, t, Failed)
  }

  function Move(q: Queue, t: nat, stage: Stage): (r: Queue)
    requires t in q.leaders && q.leaders[t].phase.Work?
  {
    q.(leaders := q.leaders[t := q.leaders[t].(phase := q.leaders[t].phase.(stage := stage))])
  }

  /** `enqueue_slot`: the ticket, and the lead if nobody has it. */
  function Enqueued(q: Queue, t: nat): (r: Queue) {
    if q.active then q else q.(active := true, leaders := q.leaders[t := Leader(0, Top)])
  }

  function Claimed(q: Queue, t: nat, n: nat): (r: Queue) {
    var c := q.(claiming := q.claiming - {t});
    if q.active || q.drained == n then c
    else c.(active := true, leaders := q.leaders[t := Leader(0, Top)])
  }

  /** Memtable and SSTs when the parked map has been flushed. */
  function FlushDone(m: Mem): (r: Mem)
    requires m.parked.Some?
  {
    m.(store := S.After(m.store, S.Flush(m.parked.value)), stored := m.cut, parked := None, kept := m.cut, flusher := Nobody)
  }

  /** And when that has failed, with or without the SST: `reabsorb`, in which the active map wins. */
  function FlushUndone(m: Mem, landed: bool): (r: Mem)
    requires m.parked.Some?
  {
    m.(store := S.After(m.store, if landed then S.Land(m.parked.value) else S.Waste),
       stored := if landed then m.cut else m.stored,
       active := m.parked.value + m.active, parked := None, flusher := Nobody)
  }

  /** A batch of operations `from..to` of which `k` land, all `to - from` numbers used. */
  function Append(g: Seg, from: nat, to: nat, k: nat, torn: bool): (r: Seg)
    requires from <= to
  {
    var whole := g.good == |g.frames| == g.counter && g.base + g.good == from;
    g.(frames := g.frames + Frames(g.counter, from, k) + (if torn then [Torn] else []),
       counter := g.counter + (to - from),
       good := if whole then g.good + k else g.good)
  }

  function Published(q: Queue, t: nat): (r: Queue)
    requires t in q.leaders && q.leaders[t].phase.Work?
  {
    var p := q.leaders[t].phase;
    q.(failedFrom := if p.stage == Failed && q.failedFrom.None? then Some(p.from) else q.failedFrom,
       completed := if q.completed < p.to then p.to else q.completed,
       leaders := q.leaders[t := Leader(q.leaders[t].done + 1, Top)])
  }

  predicate RangeOk(q: Queue) {
    forall t | t in q.leaders && q.leaders[t].phase.Work? :: q.leaders[t].phase.from < q.leaders[t].phase.to
  }

  function Next(s: State, a: Action): (r: State)
    requires Enabled(s, a) && RangeOk(s.q)
  {
    var q, m := s.q, s.mem;
    match a
    case Begin => s.(mem := m.(busy := true))
    case Apply(l) => s.(mem := m.(hist := m.hist + [l], active := m.active + l))
    case Enqueue => s.(mem := m.(ends := m.ends + [|m.hist|], busy := false), q := Enqueued(q, |m.ends|))
    case Drain(t) =>
      s.(q := q.(drained := |m.ends|,
                 leaders := q.leaders[t := q.leaders[t].(phase := Work(Drained, q.drained, |m.ends|))]))
    case Leave(t) => s.(q := q.(active := false, leaders := q.leaders - {t}))
    case StepDown(t) =>
      s.(q := q.(active := false, leaders := q.leaders - {t}, announcing := q.announcing + {t}))
    case Announce(t) => s.(q := q.(vacant := true, announcing := q.announcing - {t}))
    case Consume(t) => s.(q := q.(vacant := false, claiming := q.claiming + {t}))
    case Claim(t) => s.(q := Claimed(q, t, |m.ends|))
    case Park(who) =>
      s.(mem := m.(parked := Some(m.active), active := map[], cut := |m.hist|, flusher := who))
    case FlushOk =>
      s.(mem := FlushDone(m), q := if LeaderFlush(s) then Move(q, m.flusher.t, Flushed) else q)
    case FlushFail(landed) =>
      s.(mem := FlushUndone(m, landed), q := if LeaderFlush(s) then Move(q, m.flusher.t, Failed) else q)
    case FlushNothing(t) => s.(q := Move(q, t, Flushed))
    case Compact(c) => s.(mem := m.(store := S.After(m.store, c)))
    case Truncate(t) =>
      s.(log := Seg(q.leaders[t].phase.from, [], 0, 0, false, false, 0), shadows := s.shadows + [s.log],
         q := Move(q, t, Truncated))
    case HeaderOk(t) => s.(shadows := [], q := Move(q, t, Ready))
    case HeaderFail(t) => s.(log := s.log.(headless := true), q := Move(q, t, Failed))
    case WriteOk(t) =>
      var p := q.leaders[t].phase;
      s.(log := Append(s.log, p.from, p.to, p.to - p.from, false), q := Move(q, t, Written))
    case WriteFail(t, k, torn) =>
      var p := q.leaders[t].phase;
      s.(log := Append(s.log, p.from, p.to, k, torn), q := Move(q, t, Failed))
    case Abort(t) => s.(q := Move(q, t, Failed))
    case SyncOk(t) =>
      s.(log := if s.log.lost then s.log else s.log.(synced := |s.log.frames|), q := Move(q, t, Synced))
    case SyncFail(t) => s.(log := s.log.(lost := true), q := Move(q, t, Failed))
    case Publish(t) => s.(q := Published(q, t))
  }

  predicate LeaderFlush(s: State) {
    s.mem.flusher.Leading? && At(s.q, s.mem.flusher.t, Drained)
  }

  // ----- What every step keeps

  predicate Increasing(ends: seq<nat>, n: nat) {
    && (forall i, j | 0 <= i < j < |ends| :: ends[i] < ends[j])
    && (forall i | 0 <= i < |ends| :: 0 < ends[i] <= n)
  }

  /** Updates and operations line up; the maps in memory are what they should be. */
  predicate MemOk(m: Mem) {
    && Increasing(m.ends, |m.hist|)
    && (!m.busy ==> E(m, |m.ends|) == |m.hist|)
    && (forall i | 0 <= i < |m.hist| :: m.hist[i] != map[])
    && m.kept <= m.stored <= |m.hist|
    && (m.flusher != Nobody <==> m.parked.Some?)
    && (m.parked.None? ==> m.active == Overlay(m.hist, m.kept, |m.hist|))
    && (m.parked.Some? ==>
          && m.stored <= m.cut <= |m.hist|
          && m.parked.value == Overlay(m.hist, m.kept, m.cut)
          && m.active == Overlay(m.hist, m.cut, |m.hist|))
  }

  /** One leader at most, and the flag says whether there is one. */
  predicate OneLeader(q: Queue) {
    && (forall t, u | t in q.leaders && u in q.leaders :: t == u)
    && (q.active <==> q.leaders != map[])
  }

  /** The watermark: a batch is the stretch between it and the drained operations. */
  predicate MarkOk(q: Queue, n: nat) {
    && q.floor <= q.replayed <= q.completed <= q.drained <= n
    && (q.failedFrom.Some? ==> q.replayed <= q.failedFrom.value <= q.completed)
    && (forall t | t in q.leaders ::
          if q.leaders[t].phase.Work?
          then q.leaders[t].phase.from == q.completed < q.leaders[t].phase.to == q.drained
          else q.completed == q.drained)
    && (q.leaders == map[] ==> q.completed == q.drained)
  }

  /** Queued operations have a leader, or a vacancy that somebody has announced, is about to
      announce, or is taking up. */
  predicate Attended(q: Queue, n: nat) {
    q.drained < n ==> q.active || q.vacant || q.announcing != {} || q.claiming != {}
  }

  /** A segment that was begun after the operations before it were flushed, and that holds the
      operations from there on in order, as far as no batch has failed. */
  predicate SegOk(g: Seg, m: Mem, n: nat) {
    && g.base <= |m.ends| && E(m, g.base) <= m.kept
    && g.good <= |g.frames| && g.synced <= |g.frames| && g.base + g.good <= n
    && (forall i | 0 <= i < g.good :: g.frames[i] == Record(i, g.base + i))
    && (forall i | g.good <= i < |g.frames| :: g.frames[i].Record? ==> g.base + g.good <= g.frames[i].op < n)
  }

  /** The promised operations are before the segment, or synced in it without a gap. */
  predicate SegSafe(g: Seg, n: nat) {
    n <= g.base + g.good && n <= g.base + g.synced
  }

  predicate Whole(g: Seg, n: nat) {
    g.good == |g.frames| == g.counter && g.base + g.good == n && !g.lost && !g.headless
  }

  predicate Settled(s: State) {
    && Whole(s.log, s.q.completed) && s.shadows == []
    && (s.log.synced == s.log.good || s.q.completed == s.q.replayed)
  }

  /** What the log looks like at each stage, before any batch has failed. */
  predicate StageOk(s: State, p: Phase) {
    match p
    case Top => Settled(s)
    case Work(Drained, _, _) => Settled(s)
    case Work(Flushed, _, _) => Settled(s)
    case Work(Truncated, _, _) => Whole(s.log, s.q.completed)
    case Work(Ready, _, _) => Whole(s.log, s.q.completed) && s.shadows == []
    case Work(Written, _, to) => Whole(s.log, to) && s.shadows == []
    case Work(Synced, _, to) => Whole(s.log, to) && s.log.synced == s.log.good && s.shadows == []
    case Work(Failed, _, _) => true
  }

  predicate Early(p: Phase) {
    p.Work? && (p.stage == Drained || p.stage == Flushed || p.stage == Truncated || p.stage == Ready)
  }

  predicate SegsOk(s: State) {
    && SegOk(s.log, s.mem, s.q.drained) && SegSafe(s.log, Promised(s.q))
    && (forall g | g in s.shadows :: SegOk(g, s.mem, s.q.drained) && SegSafe(g, Promised(s.q)))
  }

  predicate LeaderOk(s: State, l: Leader) {
    && (Early(l.phase) ==> s.log.base + s.log.good <= s.q.completed)
    && (l.phase.Work? && l.phase.stage == Flushed ==>
          s.q.drained <= |s.mem.ends| && E(s.mem, s.q.drained) <= s.mem.kept)
    && (l.phase.Work? && l.phase.stage == Truncated ==> s.log.frames == [])
    && (s.q.failedFrom.None? ==> StageOk(s, l.phase))
  }

  predicate LogOk(s: State) {
    && SegsOk(s)
    && (forall t | t in s.q.leaders :: LeaderOk(s, s.q.leaders[t]))
    && (s.q.leaders == map[] && s.q.failedFrom.None? ==> Settled(s))
  }

  /** The leader flushes only while it holds a drained batch, and parks all of it. */
  predicate FlusherOk(s: State) {
    s.mem.flusher.Leading? ==>
      && At(s.q, s.mem.flusher.t, Drained)
      && s.q.drained <= |s.mem.ends| && E(s.mem, s.q.drained) <= s.mem.cut
  }

  predicate QueueOk(q: Queue, n: nat) {
    OneLeader(q) && MarkOk(q, n) && Attended(q, n) && RangeOk(q)
  }

  predicate Inv(s: State) {
    MemOk(s.mem) && QueueOk(s.q, |s.mem.ends|) && LogOk(s) && FlusherOk(s)
  }

  // ----- The memtable

  lemma ApplyMem(m: Mem, l: Layer)
    requires MemOk(m) && m.busy && l != map[]
    ensures MemOk(m.(hist := m.hist + [l], active := m.active + l))
  {
    OverlayExtend(m.hist, l, m.kept, |m.hist|);
    if m.parked.Some? {
      OverlayExtend(m.hist, l, m.kept, m.cut);
      OverlayExtend(m.hist, l, m.cut, |m.hist|);
    }
  }

  lemma EnqueueMem(m: Mem)
    requires MemOk(m) && m.busy && E(m, |m.ends|) < |m.hist|
    ensures MemOk(m.(ends := m.ends + [|m.hist|], busy := false))
  {
  }

  lemma FlushUndoneMem(m: Mem, landed: bool)
    requires MemOk(m) && m.parked.Some?
    ensures MemOk(FlushUndone(m, landed))
  {
    OverlaySplit(m.hist, m.kept, m.cut, |m.hist|);
  }

  /** A memtable with nothing in it has nothing left to flush. */
  lemma EmptyMem(m: Mem)
    requires MemOk(m) && m.flusher == Nobody && m.active == map[]
    ensures m.kept == |m.hist|
  {
  }

  lemma MemStep(s: State, a: Action)
    requires MemOk(s.mem) && Enabled(s, a) && RangeOk(s.q)
    ensures MemOk(Next(s, a).mem)
  {
    match a
    case Apply(l) => ApplyMem(s.mem, l);
    case Enqueue => EnqueueMem(s.mem);
    case FlushFail(landed) => FlushUndoneMem(s.mem, landed);
    case _ =>
  }

  // ----- The queue

  lemma MoveQueue(q: Queue, n: nat, t: nat, stage: Stage)
    requires QueueOk(q, n) && t in q.leaders && q.leaders[t].phase.Work?
    ensures QueueOk(Move(q, t, stage), n)
  {
    var r := Move(q, t, stage);
    assert t in r.leaders;
  }

  lemma EnqueuedQueue(q: Queue, n: nat)
    requires QueueOk(q, n)
    ensures QueueOk(Enqueued(q, n), n + 1)
  {
    assert n in q.leaders[n := Leader(0, Top)];
  }

  lemma ClaimedQueue(q: Queue, n: nat, t: nat)
    requires QueueOk(q, n)
    ensures QueueOk(Claimed(q, t, n), n)
  {
    assert t in q.leaders[t := Leader(0, Top)];
  }

  lemma PublishedQueue(q: Queue, n: nat, t: nat)
    requires QueueOk(q, n) && t in q.leaders && q.leaders[t].phase.Work?
    ensures QueueOk(Published(q, t), n)
  {
    assert t in Published(q, t).leaders;
  }

  lemma QueueStep(s: State, a: Action)
    requires QueueOk(s.q, |s.mem.ends|) && Enabled(s, a)
    ensures QueueOk(Next(s, a).q, |Next(s, a).mem.ends|)
  {
    var q, n := s.q, |s.mem.ends|;
    match a
    case Enqueue => EnqueuedQueue(q, n);
    case Claim(t) => ClaimedQueue(q, n, t);
    case FlushOk => if LeaderFlush(s) { MoveQueue(q, n, s.mem.flusher.t, Flushed); }
    case FlushFail(_) => if LeaderFlush(s) { MoveQueue(q, n, s.mem.flusher.t, Failed); }
    case FlushNothing(t) => MoveQueue(q, n, t, Flushed);
    case Truncate(t) => MoveQueue(q, n, t, Truncated);
    case HeaderOk(t) => MoveQueue(q, n, t, Ready);
    case HeaderFail(t) => MoveQueue(q, n, t, Failed);
    case WriteOk(t) => MoveQueue(q, n, t, Written);
    case WriteFail(t, _, _) => MoveQueue(q, n, t, Failed);
    case Abort(t) => MoveQueue(q, n, t, Failed);
    case SyncOk(t) => MoveQueue(q, n, t, Synced);
    case SyncFail(t) => MoveQueue(q, n, t, Failed);
    case Publish(t) => PublishedQueue(q, n, t);
    case _ => LeaderSetStep(s, a);
  }

  lemma LeaderSetStep(s: State, a: Action)
    requires QueueOk(s.q, |s.mem.ends|) && Enabled(s, a)
    requires a.Begin? || a.Apply? || a.Drain? || a.Leave? || a.StepDown? || a.Announce? || a.Consume? || a.Park? || a.Compact?
    ensures QueueOk(Next(s, a).q, |Next(s, a).mem.ends|)
  {
    var r := Next(s, a).q;
    match a
    case Drain(t) => assert t in r.leaders;
    case Leave(t) => assert r.leaders == map[];
    case StepDown(t) => assert r.leaders == map[]; assert t in r.announcing;
    case Consume(t) => assert t in r.claiming;
    case _ =>
  }

  // ----- The log

  /** More operations and a later flush leave a segment as good as it was. */
  lemma SegKept(g: Seg, m: Mem, n: nat, m2: Mem, n2: nat)
    requires SegOk(g, m, n) && m.ends <= m2.ends && m.kept <= m2.kept && n <= n2
    ensures SegOk(g, m2, n2)
  {
    assert E(m2, g.base) == E(m, g.base);
  }

  /** A step that leaves the log, the acknowledgements and the leaders alone. */
  lemma LogSame(s: State, r: State)
    requires LogOk(s) && r.log == s.log && r.shadows == s.shadows && r.q.leaders == s.q.leaders
    requires s.mem.ends <= r.mem.ends && s.mem.kept <= r.mem.kept
    requires r.q.drained == s.q.drained && r.q.completed == s.q.completed && r.q.failedFrom == s.q.failedFrom
    requires r.q.replayed == s.q.replayed && r.q.floor == s.q.floor
    ensures LogOk(r)
  {
    SegKept(s.log, s.mem, s.q.drained, r.mem, r.q.drained);
    forall g | g in r.shadows ensures SegOk(g, r.mem, r.q.drained) {
      SegKept(g, s.mem, s.q.drained, r.mem, r.q.drained);
    }
    forall t | t in r.q.leaders ensures LeaderOk(r, r.q.leaders[t]) {
      assert LeaderOk(s, s.q.leaders[t]);
      if At(r.q, t, Flushed) { assert E(r.mem, r.q.drained) == E(s.mem, s.q.drained); }
    }
  }

  lemma OnlyLeader(s: State, t: nat)
    requires OneLeader(s.q) && t in s.q.leaders && LeaderOk(s, s.q.leaders[t]) && SegsOk(s)
    ensures LogOk(s)
  {
  }

  lemma SegsGrown(s: State, r: State)
    requires SegsOk(s) && r.log == s.log && r.shadows == s.shadows && Promised(r.q) == Promised(s.q)
    requires s.mem.ends <= r.mem.ends && s.mem.kept <= r.mem.kept && s.q.drained <= r.q.drained
    ensures SegsOk(r)
  {
    SegKept(s.log, s.mem, s.q.drained, r.mem, r.q.drained);
    forall g | g in r.shadows ensures SegOk(g, r.mem, r.q.drained) {
      SegKept(g, s.mem, s.q.drained, r.mem, r.q.drained);
    }
  }

  lemma DrainLog(s: State, t: nat)
    requires Inv(s) && Enabled(s, Drain(t))
    ensures LogOk(Next(s, Drain(t)))
  {
    var r := Next(s, Drain(t));
    assert LeaderOk(s, s.q.leaders[t]);
    SegsGrown(s, r);
    assert LeaderOk(r, r.q.leaders[t]);
  }

  lemma FlushedLog(s: State, t: nat)
    requires Inv(s) && At(s.q, t, Drained) && E(s.mem, s.q.drained) <= s.mem.kept
    ensures LogOk(s.(q := Move(s.q, t, Flushed)))
  {
    var r := s.(q := Move(s.q, t, Flushed));
    assert LeaderOk(s, s.q.leaders[t]);
    assert LeaderOk(r, r.q.leaders[t]);
    OnlyLeader(r, t);
  }

  /** A leader that gives its batch up. */
  lemma FailedLog(s: State, r: State, t: nat)
    requires Inv(s) && t in s.q.leaders && s.q.leaders[t].phase.Work? && r.q == Move(s.q, t, Failed)
    requires r.mem == s.mem && SegsOk(r)
    ensures LogOk(r)
  {
    MoveQueue(s.q, |s.mem.ends|, t, Failed);
    OnlyLeader(r, t);
  }

  /** Everything written so far is in the SSTs when the segment is truncated. */
  lemma TruncateLog(s: State, t: nat)
    requires Inv(s) && Enabled(s, Truncate(t))
    ensures LogOk(Next(s, Truncate(t)))
  {
    var r := Next(s, Truncate(t));
    assert LeaderOk(s, s.q.leaders[t]);
    assert E(s.mem, s.q.completed) <= E(s.mem, s.q.drained);
    MoveQueue(s.q, |s.mem.ends|, t, Truncated);
    OnlyLeader(r, t);
  }

  lemma HeaderLog(s: State, t: nat)
    requires Inv(s) && Enabled(s, HeaderOk(t))
    ensures LogOk(Next(s, HeaderOk(t)))
  {
    var r := Next(s, HeaderOk(t));
    assert LeaderOk(s, s.q.leaders[t]);
    MoveQueue(s.q, |s.mem.ends|, t, Ready);
    OnlyLeader(r, t);
  }

  lemma FramesAt(num: nat, op: nat, n: nat, i: nat)
    requires i < n
    ensures Frames(num, op, n)[i] == Record(num + i, op + i)
  {
  }

  /** Appending keeps the leading records and adds later operations only. */
  lemma AppendSeg(g: Seg, m: Mem, from: nat, to: nat, k: nat, torn: bool)
    requires SegOk(g, m, to) && g.base + g.good <= from <= to && k <= to - from
    ensures SegOk(Append(g, from, to, k, torn), m, to)
  {
    var r := Append(g, from, to, k, torn);
    forall i | |g.frames| <= i < |g.frames| + k
      ensures r.frames[i] == Record(g.counter + (i - |g.frames|), from + (i - |g.frames|))
    {
      FramesAt(g.counter, from, k, i - |g.frames|);
    }
  }

  lemma AppendSafe(g: Seg, from: nat, to: nat, k: nat, torn: bool, n: nat)
    requires SegSafe(g, n) && from <= to
    ensures SegSafe(Append(g, from, to, k, torn), n)
  {
  }

  lemma WriteSegs(s: State, t: nat, k: nat, torn: bool)
    requires Inv(s) && CanWrite(s.q, t) && k <= s.q.drained - s.q.completed
    ensures SegsOk(s.(log := Batched(s, k, torn)))
  {
    assert LeaderOk(s, s.q.leaders[t]);
    AppendSeg(s.log, s.mem, s.q.completed, s.q.drained, k, torn);
    AppendSafe(s.log, s.q.completed, s.q.drained, k, torn, Promised(s.q));
  }

  lemma AppendWhole(g: Seg, from: nat, to: nat)
    requires Whole(g, from) && from <= to
    ensures Whole(Append(g, from, to, to - from, false), to)
  {
  }

  /** The leader's batch is the stretch from the watermark to the drained operations. */
  function Batched(s: State, k: nat, torn: bool): (g: Seg)
    requires s.q.completed <= s.q.drained
  {
    Append(s.log, s.q.completed, s.q.drained, k, torn)
  }

  lemma WriteIs(s: State, t: nat)
    requires Inv(s) && Enabled(s, WriteOk(t))
    ensures Next(s, WriteOk(t)) ==
            s.(log := Batched(s, s.q.drained - s.q.completed, false), q := Move(s.q, t, Written))
  {
  }

  lemma WrittenStage(s: State, t: nat)
    requires Inv(s) && CanWrite(s.q, t)
    ensures var r := s.(log := Batched(s, s.q.drained - s.q.completed, false), q := Move(s.q, t, Written));
            LeaderOk(r, r.q.leaders[t])
  {
    assert LeaderOk(s, s.q.leaders[t]);
    if s.q.failedFrom.None? { AppendWhole(s.log, s.q.completed, s.q.drained); }
  }

  lemma MovedLog(s: State, log: Seg, t: nat, stage: Stage)
    requires OneLeader(s.q) && t in s.q.leaders && s.q.leaders[t].phase.Work?
    requires SegsOk(s.(log := log))
    requires var r := s.(log := log, q := Move(s.q, t, stage)); LeaderOk(r, r.q.leaders[t])
    ensures LogOk(s.(log := log, q := Move(s.q, t, stage)))
  {
    OnlyLeader(s.(log := log, q := Move(s.q, t, stage)), t);
  }

  lemma WrittenLog(s: State, t: nat)
    requires Inv(s) && CanWrite(s.q, t)
    ensures LogOk(s.(log := Batched(s, s.q.drained - s.q.completed, false), q := Move(s.q, t, Written)))
  {
    WrittenStage(s, t);
    WriteSegs(s, t, s.q.drained - s.q.completed, false);
    MovedLog(s, Batched(s, s.q.drained - s.q.completed, false), t, Written);
  }

  lemma WriteLog(s: State, t: nat)
    requires Inv(s) && Enabled(s, WriteOk(t))
    ensures LogOk(Next(s, WriteOk(t)))
  {
    WriteIs(s, t);
    WrittenLog(s, t);
  }

  lemma WriteFailLog(s: State, t: nat, k: nat, torn: bool)
    requires Inv(s) && Enabled(s, WriteFail(t, k, torn))
    ensures LogOk(Next(s, WriteFail(t, k, torn)))
  {
    WriteSegs(s, t, k, torn);
    FailedLog(s, Next(s, WriteFail(t, k, torn)), t);
  }

  lemma SyncLog(s: State, t: nat)
    requires Inv(s) && Enabled(s, SyncOk(t))
    ensures LogOk(Next(s, SyncOk(t)))
  {
    var r := Next(s, SyncOk(t));
    assert LeaderOk(s, s.q.leaders[t]);
    MoveQueue(s.q, |s.mem.ends|, t, Synced);
    OnlyLeader(r, t);
  }

  /** A batch is acknowledged only when a sync has covered all of it. */
  lemma PublishLog(s: State, t: nat)
    requires Inv(s) && Enabled(s, Publish(t))
    ensures LogOk(Next(s, Publish(t)))
  {
    var r := Next(s, Publish(t));
    assert LeaderOk(s, s.q.leaders[t]);
    PublishedQueue(s.q, |s.mem.ends|, t);
    OnlyLeader(r, t);
  }

  /** The lead is taken by a thread that starts at the top, or given up there. */
  lemma LeadLog(s: State, r: State)
    requires Inv(s) && r.log == s.log && r.shadows == s.shadows
    requires r.mem == s.mem || (r.mem.kept == s.mem.kept && s.mem.ends <= r.mem.ends)
    requires r.q.drained == s.q.drained && r.q.completed == s.q.completed && r.q.failedFrom == s.q.failedFrom
    requires r.q.replayed == s.q.replayed && r.q.floor == s.q.floor
    requires forall t | t in s.q.leaders :: s.q.leaders[t].phase == Top
    requires forall t | t in r.q.leaders :: r.q.leaders[t].phase == Top
    ensures LogOk(r)
  {
    SegsGrown(s, r);
    if s.q.leaders != map[] {
      var t :| t in s.q.leaders;
      assert LeaderOk(s, s.q.leaders[t]);
    }
  }

  lemma FlushLog(s: State, a: Action)
    requires Inv(s) && Enabled(s, a) && (a.FlushOk? || a.FlushFail?)
    ensures LogOk(Next(s, a))
  {
    var s1 := s.(mem := Next(s, a).mem);
    MemStep(s, a);
    LogSame(s, s1);
    if LeaderFlush(s) {
      var t := s.mem.flusher.t;
      assert Inv(s1);
      if a.FlushOk? { FlushedLog(s1, t); } else { FailedLog(s1, Next(s, a), t); }
    }
  }

  lemma GiveUpLog(s: State, a: Action)
    requires Inv(s) && Enabled(s, a) && (a.HeaderFail? || a.Abort? || a.SyncFail?)
    ensures LogOk(Next(s, a))
  {
    FailedLog(s, Next(s, a), a.t);
  }

  lemma WriteLogStep(s: State, a: Action)
    requires Inv(s) && Enabled(s, a) && (a.WriteOk? || a.WriteFail? || a.SyncOk?)
    ensures LogOk(Next(s, a))
  {
    match a
    case WriteOk(t) => WriteLog(s, t);
    case WriteFail(t, k, torn) => WriteFailLog(s, t, k, torn);
    case SyncOk(t) => SyncLog(s, t);
  }

  lemma RotateLogStep(s: State, a: Action)
    requires Inv(s) && Enabled(s, a) && (a.Truncate? || a.HeaderOk? || a.FlushNothing?)
    ensures LogOk(Next(s, a))
  {
    match a
    case Truncate(t) => TruncateLog(s, t);
    case HeaderOk(t) => HeaderLog(s, t);
    case FlushNothing(t) => EmptyMem(s.mem); FlushedLog(s, t);
  }

  lemma QuietLogStep(s: State, a: Action)
    requires Inv(s) && Enabled(s, a)
    requires a.Begin? || a.Apply? || a.Announce? || a.Consume? || a.Park? || a.Compact?
    ensures LogOk(Next(s, a))
  {
    LogSame(s, Next(s, a));
  }

  lemma LeadLogStep(s: State, a: Action)
    requires Inv(s) && Enabled(s, a) && (a.Enqueue? || a.Claim? || a.Leave? || a.StepDown?)
    ensures LogOk(Next(s, a))
  {
    var r := Next(s, a);
    if r.q.leaders == s.q.leaders { LogSame(s, r); } else { LeadLog(s, r); }
  }

  lemma QueueLogStep(s: State, a: Action)
    requires Inv(s) && Enabled(s, a)
    requires a.Enqueue? || a.Claim? || a.Drain? || a.Leave? || a.StepDown? || a.Publish?
    ensures LogOk(Next(s, a))
  {
    match a
    case Drain(t) => DrainLog(s, t);
    case Publish(t) => PublishLog(s, t);
    case _ => LeadLogStep(s, a);
  }

  lemma LogStep(s: State, a: Action)
    requires Inv(s) && Enabled(s, a)
    ensures LogOk(Next(s, a))
  {
    if a.FlushOk? || a.FlushFail? {
      FlushLog(s, a);
    } else if a.WriteOk? || a.WriteFail? || a.SyncOk? {
      WriteLogStep(s, a);
    } else if a.Truncate? || a.HeaderOk? || a.FlushNothing? {
      RotateLogStep(s, a);
    } else if a.HeaderFail? || a.Abort? || a.SyncFail? {
      GiveUpLog(s, a);
    } else if a.Enqueue? || a.Claim? || a.Drain? || a.Leave? || a.StepDown? || a.Publish? {
      QueueLogStep(s, a);
    } else {
      QuietLogStep(s, a);
    }
  }

  lemma FlusherStep(s: State, a: Action)
    requires Inv(s) && Enabled(s, a)
    ensures FlusherOk(Next(s, a))
  {
    var r := Next(s, a);
    if r.mem.flusher.Leading? {
      assert At(r.q, r.mem.flusher.t, Drained);
    }
  }

  /** Every step of every thread keeps the invariant. */
  lemma StepKeepsInv(s: State, a: Action)
    requires Inv(s) && Enabled(s, a)
    ensures Inv(Next(s, a))
  {
    MemStep(s, a);
    QueueStep(s, a);
    LogStep(s, a);
    FlusherStep(s, a);
  }

  // ----- The SSTs

  /** A value `k` had after `kept` updates or later, but with none from `stored` on. */
  ghost predicate InRange(disk: seq<Layer>, m: Mem, k: Key, v: Option<Bytes>) {
    exists n: nat :: m.kept <= n <= m.stored && n <= |m.hist| && v == Value(disk, m.hist, n, k)
  }

  /** All that the SSTs show or may come to show is in that range. */
  ghost predicate StoreOk(disk: seq<Layer>, m: Mem) {
    S.Good(m.store) && forall k: Key, v | S.Shows(m.store, k, v) :: InRange(disk, m, k, v)
  }

  /** The steps after which nothing is lost: see `Ssts.Clean`. */
  predicate Clean(s: State, a: Action)
    requires Enabled(s, a)
  {
    a.Compact? ==> S.Clean(s.mem.store, a.c)
  }

  lemma ApplyStore(disk: seq<Layer>, m: Mem, l: Layer)
    requires MemOk(m) && StoreOk(disk, m)
    ensures StoreOk(disk, m.(hist := m.hist + [l], active := m.active + l))
  {
    var r := m.(hist := m.hist + [l], active := m.active + l);
    forall k: Key, v | S.Shows(r.store, k, v) ensures InRange(disk, r, k, v) {
      assert InRange(disk, m, k, v);
      var n: nat :| m.kept <= n <= m.stored && n <= |m.hist| && v == Value(disk, m.hist, n, k);
      OverlayExtend(m.hist, l, 0, n);
      assert v == Value(disk, r.hist, n, k);
    }
  }

  /** What the parked map holds for `k`, over a value from before, is the value at the cut. */
  lemma ParkedValue(disk: seq<Layer>, m: Mem, k: Key, v: Option<Bytes>)
    requires MemOk(m) && m.parked.Some? && InRange(disk, m, k, v)
    ensures Over(m.parked.value, v, k) == Value(disk, m.hist, m.cut, k)
  {
    var n: nat :| m.kept <= n <= m.stored && n <= |m.hist| && v == Value(disk, m.hist, n, k);
    ReplayAhead(disk, m.hist, m.kept, n, m.cut, k);
  }

  lemma ShownValue(disk: seq<Layer>, m: Mem, k: Key, v: Option<Bytes>)
    requires MemOk(m) && StoreOk(disk, m) && m.parked.Some? && S.Shown(m.store, m.parked.value, k, v)
    ensures v == Value(disk, m.hist, m.cut, k)
  {
    var prior := if k in m.parked.value then S.Live(m.store, k) else v;
    assert S.Shows(m.store, k, prior);
    ParkedValue(disk, m, k, prior);
  }

  /** After a flush the SSTs hold exactly the updates up to the cut. */
  lemma StoredMem(disk: seq<Layer>, m: Mem)
    requires MemOk(m) && StoreOk(disk, m) && m.parked.Some?
    ensures StoreOk(disk, FlushDone(m))
    ensures forall k: Key, v | S.Shows(FlushDone(m).store, k, v) :: v == Value(disk, m.hist, m.cut, k)
  {
    var r := FlushDone(m);
    S.StepKeepsGood(m.store, S.Flush(m.parked.value));
    forall k: Key, v | S.Shows(r.store, k, v) ensures v == Value(disk, m.hist, m.cut, k) && InRange(disk, r, k, v) {
      S.StepShows(m.store, S.Flush(m.parked.value), k, v);
      ShownValue(disk, m, k, v);
    }
  }

  lemma LandStore(disk: seq<Layer>, m: Mem, k: Key, v: Option<Bytes>)
    requires MemOk(m) && StoreOk(disk, m) && m.parked.Some?
    requires S.Shows(S.After(m.store, S.Land(m.parked.value)), k, v)
    ensures InRange(disk, FlushUndone(m, true), k, v)
  {
    S.StepShows(m.store, S.Land(m.parked.value), k, v);
    if S.Shows(m.store, k, v) {
      assert InRange(disk, m, k, v);
      var n: nat :| m.kept <= n <= m.stored && n <= |m.hist| && v == Value(disk, m.hist, n, k);
      assert n <= m.cut;
    } else {
      ShownValue(disk, m, k, v);
      assert m.kept <= m.cut <= |m.hist|;
    }
  }

  lemma FlushFailStore(disk: seq<Layer>, m: Mem, landed: bool)
    requires MemOk(m) && StoreOk(disk, m) && m.parked.Some?
    ensures StoreOk(disk, FlushUndone(m, landed))
  {
    var r := FlushUndone(m, landed);
    if landed {
      S.StepKeepsGood(m.store, S.Land(m.parked.value));
      forall k: Key, v | S.Shows(r.store, k, v) ensures InRange(disk, r, k, v) {
        LandStore(disk, m, k, v);
      }
    } else {
      S.StepKeepsGood(m.store, S.Waste);
      forall k: Key, v | S.Shows(r.store, k, v) ensures InRange(disk, r, k, v) {
        S.StepShows(m.store, S.Waste, k, v);
        assert InRange(disk, m, k, v);
      }
    }
  }

  lemma CompactStore(disk: seq<Layer>, m: Mem, c: S.Change)
    requires StoreOk(disk, m) && S.Can(m.store, c) && S.Clean(m.store, c) && CanCompact(m, c)
    ensures StoreOk(disk, m.(store := S.After(m.store, c)))
  {
    var r := m.(store := S.After(m.store, c));
    S.StepKeepsGood(m.store, c);
    forall k: Key, v | S.Shows(r.store, k, v) ensures InRange(disk, r, k, v) {
      S.StepShows(m.store, c, k, v);
      assert InRange(disk, m, k, v);
    }
  }

  lemma SameStore(disk: seq<Layer>, m: Mem, r: Mem)
    requires StoreOk(disk, m) && r.store == m.store && r.hist == m.hist && r.kept == m.kept && r.stored == m.stored
    ensures StoreOk(disk, r)
  {
    forall k: Key, v | S.Shows(r.store, k, v) ensures InRange(disk, r, k, v) {
      assert InRange(disk, m, k, v);
    }
  }

  /** Every clean step keeps the SSTs in range. */
  lemma StepKeepsStore(s: State, a: Action)
    requires Inv(s) && StoreOk(s.disk, s.mem) && Enabled(s, a) && Clean(s, a)
    ensures StoreOk(s.disk, Next(s, a).mem)
  {
    match a
    case Apply(l) => ApplyStore(s.disk, s.mem, l);
    case FlushOk => StoredMem(s.disk, s.mem);
    case FlushFail(landed) => FlushFailStore(s.disk, s.mem, landed);
    case Compact(c) => CompactStore(s.disk, s.mem, c);
    case _ => SameStore(s.disk, s.mem, Next(s, a).mem);
  }
}
