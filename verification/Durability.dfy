/** What a crash leaves, after any run of the writers, leaders, flushes, rotations and compactions
    of `GroupCommit`: when no acknowledged write is lost, and when the store does not come back. */
module Durability {
  import opened Basics
  import opened Lsm
  import opened Recovery
  import opened Segment
  import opened GroupCommit
  import S = Ssts

  // ----- Runs

  /** A process that has opened `files` and replayed `|ends|` operations, of which `floor` were
      durable. */
  function Start(files: seq<File>, next: nat, hist: seq<Layer>, ends: seq<nat>, floor: nat): (s: State) {
    var n := |ends|;
    State(Layers(files),
          Mem(hist, ends, false, Overlay(hist, 0, |hist|), None, S.Opening(files, next), 0, 0, 0, Nobody),
          Seg(0, Frames(0, 0, n), n, floor, false, false, n), [],
          Queue(n, false, map[], {}, {}, false, n, None, n, floor))
  }

  predicate CanStart(files: seq<File>, next: nat, hist: seq<Layer>, ends: seq<nat>, floor: nat) {
    && Descending(files) && (forall f | f in files :: f.number < next)
    && Increasing(ends, |hist|) && floor <= |ends|
    && (if ends == [] then hist == [] else ends[|ends| - 1] == |hist|)
    && forall i | 0 <= i < |hist| :: hist[i] != map[]
  }

  lemma StartOk(files: seq<File>, next: nat, hist: seq<Layer>, ends: seq<nat>, floor: nat)
    requires CanStart(files, next, hist, ends, floor)
    ensures Inv(Start(files, next, hist, ends, floor))
  {
    var s := Start(files, next, hist, ends, floor);
    assert MemOk(s.mem);
    assert SegOk(s.log, s.mem, |ends|);
  }

  lemma StartStore(files: seq<File>, next: nat, hist: seq<Layer>, ends: seq<nat>, floor: nat)
    requires CanStart(files, next, hist, ends, floor)
    ensures var s := Start(files, next, hist, ends, floor); StoreOk(s.disk, s.mem)
  {
    var s := Start(files, next, hist, ends, floor);
    S.OpeningGood(files, next);
    forall k: Key, v | S.Shows(s.mem.store, k, v) ensures InRange(s.disk, s.mem, k, v) {
      assert v == Value(s.disk, hist, 0, k);
    }
  }

  ghost predicate StepAt(trace: seq<State>, acts: seq<Action>, i: nat)
    requires |trace| == |acts| + 1 && i < |acts|
  {
    RangeOk(trace[i].q) && Enabled(trace[i], acts[i]) && trace[i + 1] == Next(trace[i], acts[i])
  }

  ghost predicate IsStart(s: State) {
    exists files, next, hist, ends, floor ::
      CanStart(files, next, hist, ends, floor) && s == Start(files, next, hist, ends, floor)
  }

  /** Every interleaving, from every start. */
  ghost predicate IsRun(trace: seq<State>, acts: seq<Action>) {
    && |trace| == |acts| + 1 && IsStart(trace[0])
    && forall i | 0 <= i < |acts| :: StepAt(trace, acts, i)
  }

  lemma {:induction false} RunKeepsInv(trace: seq<State>, acts: seq<Action>, i: nat)
    requires IsRun(trace, acts) && i <= |acts|
    ensures Inv(trace[i])
  {
    if i == 0 {
      var files, next, hist, ends, floor :|
        CanStart(files, next, hist, ends, floor) && trace[0] == Start(files, next, hist, ends, floor);
      StartOk(files, next, hist, ends, floor);
    } else {
      RunKeepsInv(trace, acts, i - 1);
      assert StepAt(trace, acts, i - 1);
      StepKeepsInv(trace[i - 1], acts[i - 1]);
    }
  }

  ghost predicate CleanAt(trace: seq<State>, acts: seq<Action>, i: nat)
    requires |trace| == |acts| + 1 && i < |acts|
  {
    Enabled(trace[i], acts[i]) && Clean(trace[i], acts[i])
  }

  /** Up to `i`, no compaction starts from a list that is behind the files, and no partial one
      fails after it has unlinked an input. */
  ghost predicate CleanRun(trace: seq<State>, acts: seq<Action>, i: nat)
    requires |trace| == |acts| + 1 && i <= |acts|
  {
    forall j | 0 <= j < i :: CleanAt(trace, acts, j)
  }

  lemma {:induction false} CleanRunKeeps(trace: seq<State>, acts: seq<Action>, i: nat)
    requires IsRun(trace, acts) && i <= |acts| && CleanRun(trace, acts, i)
    ensures StoreOk(trace[i].disk, trace[i].mem)
  {
    if i == 0 {
      var files, next, hist, ends, floor :|
        CanStart(files, next, hist, ends, floor) && trace[0] == Start(files, next, hist, ends, floor);
      StartStore(files, next, hist, ends, floor);
    } else {
      CleanRunKeeps(trace, acts, i - 1);
      RunKeepsInv(trace, acts, i - 1);
      assert StepAt(trace, acts, i - 1) && CleanAt(trace, acts, i - 1);
      StepKeepsStore(trace[i - 1], acts[i - 1]);
    }
  }

  /** The steps `acts` lead from `s` to `r`. */
  ghost predicate Steps(s: State, acts: seq<Action>, r: State)
    decreases |acts|
  {
    if acts == [] then s == r
    else RangeOk(s.q) && Enabled(s, acts[0]) && Steps(Next(s, acts[0]), acts[1..], r)
  }

  // ----- Leaders and acknowledgements

  /** In every reachable state at most one thread is in the commit loop. */
  lemma SingleLeader(trace: seq<State>, acts: seq<Action>, i: nat, t: nat, u: nat)
    requires IsRun(trace, acts) && i <= |acts|
    requires t in trace[i].q.leaders && u in trace[i].q.leaders
    ensures t == u
  {
    RunKeepsInv(trace, acts, i);
  }

  /** An acknowledgement is never taken back. */
  lemma AckStays(s: State, a: Action)
    requires Inv(s) && Enabled(s, a)
    ensures Acked(s.q) <= Acked(Next(s, a).q)
  {
  }

  lemma {:induction false} AcksStay(trace: seq<State>, acts: seq<Action>, i: nat, j: nat)
    requires IsRun(trace, acts) && i <= j <= |acts|
    ensures Acked(trace[i].q) <= Acked(trace[j].q)
    decreases j - i
  {
    if i < j {
      AcksStay(trace, acts, i, j - 1);
      RunKeepsInv(trace, acts, j - 1);
      assert StepAt(trace, acts, j - 1);
      AckStays(trace[j - 1], acts[j - 1]);
    }
  }

  /** A step that moves the commit on: not a new writer, a background flush or compaction, or
      a fault. */
  predicate Advances(a: Action) {
    !a.Begin? && !a.Park? && !a.Compact? && !a.FlushFail? && !a.WriteFail? && !a.Abort? && !a.HeaderFail? && !a.SyncFail?
  }

  lemma LeaderMoves(s: State, t: nat) returns (a: Action)
    requires Inv(s) && t in s.q.leaders && s.q.leaders[t].phase.Work?
    ensures Advances(a) && Enabled(s, a)
  {
    match s.q.leaders[t].phase.stage
    case Drained => a := if s.mem.flusher == Leading(t) then FlushOk else WriteOk(t);
    case Flushed => a := Truncate(t);
    case Truncated => a := HeaderOk(t);
    case Ready => a := WriteOk(t);
    case Written => a := SyncOk(t);
    case Synced => a := Publish(t);
    case Failed => a := Publish(t);
  }

  lemma VacancyMoves(s: State) returns (a: Action)
    requires Inv(s) && !s.mem.busy && s.q.drained < |s.mem.ends| && !s.q.active
    ensures Advances(a) && Enabled(s, a)
  {
    if s.q.announcing != {} {
      var t :| t in s.q.announcing;
      a := Announce(t);
    } else if s.q.claiming != {} {
      var t :| t in s.q.claiming;
      a := Claim(t);
    } else {
      a := Consume(s.q.drained);
    }
  }

  /** While an operation is queued or in a batch, some thread can move the commit on: the lead
      is never lost between a leader that steps down and the writers waiting on it. */
  lemma NeverStuck(s: State) returns (a: Action)
    requires Inv(s) && s.q.completed < |s.mem.ends|
    ensures Advances(a) && Enabled(s, a)
  {
    if s.mem.busy {
      var l: Layer := map[[] := Tombstone];
      assert [] in l;
      a := if E(s.mem, |s.mem.ends|) < |s.mem.hist| then Enqueue else Apply(l);
    } else if s.q.active {
      var t :| t in s.q.leaders;
      if s.q.leaders[t].phase.Work? {
        a := LeaderMoves(s, t);
      } else {
        a := if s.q.leaders[t].done < MAX_LEADER_BATCHES then Drain(t) else StepDown(t);
      }
    } else {
      a := VacancyMoves(s);
    }
  }

  // ----- A crash, and what the restart rebuilds

  /** The crash leaves `c` frames of `g`, all the synced ones among them, and perhaps the start
      of the next; of the SSTs it leaves what `Ssts.CrashDisk` says. */
  predicate Crash(s: State, g: Seg, c: nat, torn: bool) {
    (g == s.log || g in s.shadows) && g.synced <= c <= |g.frames| && (torn ==> c < |g.frames|)
  }

  function Open(g: Seg, c: nat, torn: bool): (o: Opening)
    requires c <= |g.frames|
  {
    if g.headless && Cut(g.frames, c, torn) != [] then Refused else Scan(Cut(g.frames, c, torn), 0)
  }

  lemma EndsGrow(m: Mem, t: nat, u: nat)
    requires Increasing(m.ends, |m.hist|) && t <= u <= |m.ends|
    ensures E(m, t) <= E(m, u) <= |m.hist|
  {
  }

  /** The updates of operations `t..u`. */
  function Stretch(m: Mem, t: nat, u: nat): (l: Layer)
    requires Increasing(m.ends, |m.hist|) && t <= u <= |m.ends|
  {
    EndsGrow(m, t, u);
    Overlay(m.hist, E(m, t), E(m, u))
  }

  /** What each operation does to the memtable as a whole. */
  function Ops(m: Mem): (ops: seq<Layer>)
    requires Increasing(m.ends, |m.hist|)
    ensures |ops| == |m.ends| && forall u | 0 <= u < |ops| :: ops[u] == Stretch(m, u, u + 1)
  {
    seq(|m.ends|, u requires 0 <= u < |m.ends| => Stretch(m, u, u + 1))
  }

  predicate Readable(f: seq<Frame>, n: nat, ops: seq<Layer>) {
    n <= |f| && forall i | 0 <= i < n :: f[i].Record? && f[i].op < |ops|
  }

  /** The memtable after the first `n` records are replayed. */
  function Replayed(f: seq<Frame>, n: nat, ops: seq<Layer>): (l: Layer)
    requires Readable(f, n, ops)
  {
    if n == 0 then map[] else Replayed(f, n - 1, ops) + ops[f[n - 1].op]
  }

  /** A segment that can be replayed over the SSTs. */
  predicate Usable(g: Seg, m: Mem, n: nat) {
    Increasing(m.ends, |m.hist|) && SegOk(g, m, n) && n <= |m.ends| && m.kept <= m.stored <= |m.hist|
  }

  lemma StretchNext(m: Mem, t: nat, u: nat)
    requires Increasing(m.ends, |m.hist|) && t <= u < |m.ends|
    ensures Stretch(m, t, u + 1) == Stretch(m, t, u) + Stretch(m, u, u + 1)
  {
    EndsGrow(m, t, u);
    EndsGrow(m, u, u + 1);
    OverlaySplit(m.hist, E(m, t), E(m, u), E(m, u + 1));
  }

  lemma {:induction false} OpsOverlay(m: Mem, t: nat, u: nat)
    requires Increasing(m.ends, |m.hist|) && t <= u <= |m.ends|
    ensures Overlay(Ops(m), t, u) == Stretch(m, t, u)
    decreases u - t
  {
    if t < u {
      OpsOverlay(m, t, u - 1);
      StretchNext(m, t, u - 1);
    }
  }

  /** The leading records rebuild a stretch of the history. */
  lemma {:induction false} ReplayedGood(f: seq<Frame>, base: nat, i: nat, ops: seq<Layer>)
    requires Readable(f, i, ops) && base + i <= |ops| && forall j | 0 <= j < i :: f[j].op == base + j
    ensures Replayed(f, i, ops) == Overlay(ops, base, base + i)
    decreases i
  {
    if i > 0 { ReplayedGood(f, base, i - 1, ops); }
  }

  /** A key in the updates of one operation has after it the value the operation gave it. */
  lemma OpValue(disk: seq<Layer>, m: Mem, u: nat, v: Option<Bytes>, k: Key)
    requires Increasing(m.ends, |m.hist|) && u < |m.ends| && k in Stretch(m, u, u + 1)
    ensures Since(disk, m, u + 1, Over(Stretch(m, u, u + 1), v, k), k)
  {
    EndsGrow(m, u, u + 1);
    OverlaySplit(m.hist, 0, E(m, u), E(m, u + 1));
    assert Over(Stretch(m, u, u + 1), v, k) == Value(disk, m.hist, E(m, u + 1), k);
  }

  /** A value `k` had at the end of the first `p` operations or later. */
  ghost predicate Since(disk: seq<Layer>, m: Mem, p: nat, v: Option<Bytes>, k: Key) {
    p <= |m.ends| && exists q: nat :: E(m, p) <= q <= |m.hist| && v == Value(disk, m.hist, q, k)
  }

  lemma SinceEarlier(disk: seq<Layer>, m: Mem, p: nat, q: nat, v: Option<Bytes>, k: Key)
    requires Increasing(m.ends, |m.hist|) && p <= q && Since(disk, m, q, v, k)
    ensures Since(disk, m, p, v, k)
  {
    EndsGrow(m, p, q);
  }

  lemma OverTop(a: Layer, b: Layer, v: Option<Bytes>, k: Key)
    ensures Over(a + b, v, k) == if k in b then Over(b, v, k) else Over(a, v, k)
  {
  }

  /** Records behind the leading ones change the value of `k` only to what one of them brings. */
  lemma {:induction false} ReplayedTail(f: seq<Frame>, g: nat, i: nat, ops: seq<Layer>,
                                        brought: Option<Bytes> -> bool, v: Option<Bytes>, k: Key)
    requires g <= i && Readable(f, i, ops)
    requires forall j | g <= j < i :: k in ops[f[j].op] ==> brought(Over(ops[f[j].op], v, k))
    ensures || Over(Replayed(f, i, ops), v, k) == Over(Replayed(f, g, ops), v, k)
            || brought(Over(Replayed(f, i, ops), v, k))
    decreases i
  {
    if g < i {
      ReplayedTail(f, g, i - 1, ops, brought, v, k);
      OverTop(Replayed(f, i - 1, ops), ops[f[i - 1].op], v, k);
    }
  }

  lemma GoodReplay(g: Seg, m: Mem, n: nat, i: nat)
    requires Usable(g, m, n) && i <= g.good && Readable(g.frames, i, Ops(m))
    ensures Replayed(g.frames, i, Ops(m)) == Stretch(m, g.base, g.base + i)
  {
    ReplayedGood(g.frames, g.base, i, Ops(m));
    OpsOverlay(m, g.base, g.base + i);
  }

  lemma StretchValue(disk: seq<Layer>, m: Mem, t: nat, u: nat, x: nat, k: Key)
    requires Increasing(m.ends, |m.hist|) && t <= u <= |m.ends| && E(m, t) <= x <= |m.hist|
    ensures Since(disk, m, u, Over(Stretch(m, t, u), Value(disk, m.hist, x, k), k), k)
  {
    EndsGrow(m, t, u);
    ReplayedValue(disk, m.hist, E(m, t), E(m, u), x, k);
  }

  /** The leading records over the SSTs: a value from the end of the replay or later. */
  lemma GoodValue(disk: seq<Layer>, g: Seg, m: Mem, n: nat, i: nat, x: nat, k: Key)
    requires Usable(g, m, n) && i <= g.good && Readable(g.frames, i, Ops(m)) && m.kept <= x <= |m.hist|
    ensures Since(disk, m, g.base + i, Over(Replayed(g.frames, i, Ops(m)), Value(disk, m.hist, x, k), k), k)
  {
    GoodReplay(g, m, n, i);
    StretchValue(disk, m, g.base, g.base + i, x, k);
  }

  lemma Brings(disk: seq<Layer>, m: Mem, u: nat, p: nat, v: Option<Bytes>, k: Key)
    requires Increasing(m.ends, |m.hist|) && p <= u < |m.ends| && k in Ops(m)[u]
    ensures Since(disk, m, p, Over(Ops(m)[u], v, k), k)
  {
    OpValue(disk, m, u, v, k);
    SinceEarlier(disk, m, p, u + 1, Over(Ops(m)[u], v, k), k);
  }

  /** All the records: the later ones can only bring later values. */
  lemma TailValue(disk: seq<Layer>, g: Seg, m: Mem, n: nat, i: nat, x: nat, k: Key)
    requires Usable(g, m, n) && g.good < i && Readable(g.frames, i, Ops(m)) && m.kept <= x <= |m.hist|
    ensures Since(disk, m, g.base + g.good, Over(Replayed(g.frames, i, Ops(m)), Value(disk, m.hist, x, k), k), k)
  {
    GoodValue(disk, g, m, n, g.good, x, k);
    var v := Value(disk, m.hist, x, k);
    var brought := x => Since(disk, m, g.base + g.good, x, k);
    forall j | g.good <= j < i && k in Ops(m)[g.frames[j].op] ensures brought(Over(Ops(m)[g.frames[j].op], v, k)) {
      Brings(disk, m, g.frames[j].op, g.base + g.good, v, k);
    }
    ReplayedTail(g.frames, g.good, i, Ops(m), brought, v, k);
  }

  /** What the scan reads is whole records; it reads all the leading ones the crash left. */
  lemma OpenReads(g: Seg, m: Mem, n: nat, c: nat, torn: bool)
    requires Usable(g, m, n) && c <= |g.frames| && Open(g, c, torn).Opened?
    ensures Readable(g.frames, Open(g, c, torn).count, Ops(m))
    ensures c <= Open(g, c, torn).count || g.good <= Open(g, c, torn).count
  {
    var f := Cut(g.frames, c, torn);
    var w := if c < g.good then c else g.good;
    assert forall i | 0 <= i < c :: f[i] == g.frames[i];
    ScanOpened(f, w);
    var count := Open(g, c, torn).count;
    assert torn ==> f[c].Torn?;
    forall i | 0 <= i < count ensures g.frames[i].Record? && g.frames[i].op < |m.ends| {
      assert f[i].Record? && f[i] == g.frames[i];
    }
  }

  /** A read of `k` after the restart, over the SSTs `files`. */
  function Restarted(s: State, g: Seg, c: nat, torn: bool, files: seq<File>, k: Key): (v: Option<Bytes>)
    requires c <= |g.frames| && Open(g, c, torn).Opened? && Increasing(s.mem.ends, |s.mem.hist|)
    requires Readable(g.frames, Open(g, c, torn).count, Ops(s.mem))
  {
    View([Replayed(g.frames, Open(g, c, torn).count, Ops(s.mem))] + Layers(files), k)
  }

  /** The SSTs give a value from before the updates the replay starts with. */
  lemma RestartedOver(s: State, g: Seg, c: nat, torn: bool, files: seq<File>, k: Key) returns (x: nat)
    requires StoreOk(s.disk, s.mem) && S.CrashDisk(s.mem.store, files) && s.mem.stored <= |s.mem.hist|
    requires c <= |g.frames| && Open(g, c, torn).Opened? && Increasing(s.mem.ends, |s.mem.hist|)
    requires Readable(g.frames, Open(g, c, torn).count, Ops(s.mem))
    ensures s.mem.kept <= x <= s.mem.stored
    ensures Restarted(s, g, c, torn, files, k) ==
            Over(Replayed(g.frames, Open(g, c, torn).count, Ops(s.mem)), Value(s.disk, s.mem.hist, x, k), k)
  {
    var m := s.mem;
    ViewOver(Replayed(g.frames, Open(g, c, torn).count, Ops(m)), Layers(files), k);
    S.CrashShows(m.store, files, k);
    assert InRange(s.disk, m, k, View(Layers(files), k));
    x :| m.kept <= x <= m.stored && x <= |m.hist| && View(Layers(files), k) == Value(s.disk, m.hist, x, k);
  }

  lemma CrashSegOk(s: State, g: Seg, c: nat, torn: bool)
    requires Inv(s) && Crash(s, g, c, torn)
    ensures Usable(g, s.mem, s.q.drained) && SegSafe(g, Promised(s.q)) && g.synced <= c <= |g.frames|
  {
  }

  /** The promised operations are among the replayed ones, or before them. */
  lemma SegSurvives(disk: seq<Layer>, g: Seg, m: Mem, n: nat, c: nat, i: nat, p: nat, x: nat, k: Key)
    requires Usable(g, m, n) && SegSafe(g, p) && g.synced <= c && (c <= i || g.good <= i) && Readable(g.frames, i, Ops(m))
    requires m.kept <= x <= |m.hist|
    ensures Since(disk, m, p, Over(Replayed(g.frames, i, Ops(m)), Value(disk, m.hist, x, k), k), k)
  {
    var v := Over(Replayed(g.frames, i, Ops(m)), Value(disk, m.hist, x, k), k);
    if i <= g.good {
      GoodValue(disk, g, m, n, i, x, k);
      SinceEarlier(disk, m, p, g.base + i, v, k);
    } else {
      TailValue(disk, g, m, n, i, x, k);
      SinceEarlier(disk, m, p, g.base + g.good, v, k);
    }
  }

  /** After any crash that the restart can read, every key has a value it had at the end of
      the acknowledged operations or later. */
  lemma AcknowledgedSurvives(s: State, g: Seg, c: nat, torn: bool, files: seq<File>, k: Key)
    requires Inv(s) && StoreOk(s.disk, s.mem)
    requires Crash(s, g, c, torn) && Open(g, c, torn).Opened? && S.CrashDisk(s.mem.store, files)
    ensures Increasing(s.mem.ends, |s.mem.hist|) && Readable(g.frames, Open(g, c, torn).count, Ops(s.mem))
    ensures Since(s.disk, s.mem, Promised(s.q), Restarted(s, g, c, torn, files, k), k)
  {
    CrashSegOk(s, g, c, torn);
    OpenReads(g, s.mem, s.q.drained, c, torn);
    var x := RestartedOver(s, g, c, torn, files, k);
    SegSurvives(s.disk, g, s.mem, s.q.drained, c, Open(g, c, torn).count, Promised(s.q), x, k);
  }

  lemma AckedSurvives(s: State, t: nat, g: Seg, c: nat, torn: bool, files: seq<File>, k: Key)
    requires Inv(s) && StoreOk(s.disk, s.mem) && s.q.replayed <= t < Acked(s.q)
    requires Crash(s, g, c, torn) && Open(g, c, torn).Opened? && S.CrashDisk(s.mem.store, files)
    ensures Increasing(s.mem.ends, |s.mem.hist|) && Readable(g.frames, Open(g, c, torn).count, Ops(s.mem))
    ensures Since(s.disk, s.mem, t + 1, Restarted(s, g, c, torn, files, k), k)
  {
    AcknowledgedSurvives(s, g, c, torn, files, k);
    SinceEarlier(s.disk, s.mem, t + 1, Promised(s.q), Restarted(s, g, c, torn, files, k), k);
  }

  /** Over whole clean runs: an operation that was acknowledged at any point is not undone by a
      crash at that point or later, in the middle of a compaction's commit or not. */
  lemma NoAcknowledgedWriteLost(trace: seq<State>, acts: seq<Action>, i: nat, j: nat, t: nat,
                                g: Seg, c: nat, torn: bool, files: seq<File>, k: Key)
    requires IsRun(trace, acts) && i <= j <= |acts| && CleanRun(trace, acts, j)
    requires trace[j].q.replayed <= t < Acked(trace[i].q)
    requires Crash(trace[j], g, c, torn) && Open(g, c, torn).Opened? && S.CrashDisk(trace[j].mem.store, files)
    ensures Increasing(trace[j].mem.ends, |trace[j].mem.hist|)
    ensures Readable(g.frames, Open(g, c, torn).count, Ops(trace[j].mem))
    ensures Since(trace[j].disk, trace[j].mem, t + 1, Restarted(trace[j], g, c, torn, files, k), k)
  {
    RunKeepsInv(trace, acts, j);
    CleanRunKeeps(trace, acts, j);
    AcksStay(trace, acts, i, j);
    AckedSurvives(trace[j], t, g, c, torn, files, k);
  }

  lemma CrashReads(s: State, g: Seg, c: nat, torn: bool)
    requires Inv(s) && Crash(s, g, c, torn) && Open(g, c, torn).Opened?
    ensures Usable(g, s.mem, s.q.drained) && Readable(g.frames, Open(g, c, torn).count, Ops(s.mem))
  {
    CrashSegOk(s, g, c, torn);
    OpenReads(g, s.mem, s.q.drained, c, torn);
  }

  lemma GoodPrefix(disk: seq<Layer>, g: Seg, m: Mem, n: nat, i: nat, x: nat, k: Key)
    requires Usable(g, m, n) && i <= g.good && Readable(g.frames, i, Ops(m))
    requires m.kept <= x <= E(m, g.base + i) <= |m.hist|
    ensures Over(Replayed(g.frames, i, Ops(m)), Value(disk, m.hist, x, k), k) ==
            Value(disk, m.hist, E(m, g.base + i), k)
  {
    GoodReplay(g, m, n, i);
    EndsGrow(m, g.base, g.base + i);
    ReplayAhead(disk, m.hist, E(m, g.base), x, E(m, g.base + i), k);
  }

  /** When the replay reaches as far as the SSTs, and no batch had failed before it in the
      segment, the restart is exactly the state after the operations it has read. */
  lemma RestartIsPrefix(s: State, g: Seg, c: nat, torn: bool, n: nat, files: seq<File>, k: Key)
    requires Inv(s) && StoreOk(s.disk, s.mem)
    requires Crash(s, g, c, torn) && Open(g, c, torn) == Opened(n) && n <= g.good && S.CrashDisk(s.mem.store, files)
    requires g.base + n <= |s.mem.ends| && s.mem.stored <= E(s.mem, g.base + n) <= |s.mem.hist|
    ensures Increasing(s.mem.ends, |s.mem.hist|) && Readable(g.frames, n, Ops(s.mem))
    ensures Restarted(s, g, c, torn, files, k) == Value(s.disk, s.mem.hist, E(s.mem, g.base + n), k)
  {
    CrashReads(s, g, c, torn);
    var x := RestartedOver(s, g, c, torn, files, k);
    GoodPrefix(s.disk, g, s.mem, s.q.drained, n, x, k);
  }

  // ----- When the store does not come back

  /** No write to the segment has failed. */
  predicate Aligned(g: Seg) {
    Numbered(g.frames, |g.frames|) && g.counter == |g.frames| && !g.headless
  }

  /** A write has failed, and nothing was written behind it. */
  predicate Stopped(g: Seg) {
    (g.headless ==> g.frames == []) && (Numbered(g.frames, |g.frames|) || (g.frames != [] && Tidy(g.frames, |g.frames| - 1)))
  }

  predicate AllStopped(s: State) {
    Stopped(s.log) && forall g | g in s.shadows :: Stopped(g)
  }

  lemma StoppedOpens(g: Seg, c: nat, torn: bool)
    requires Stopped(g) && c <= |g.frames| && (torn ==> c < |g.frames|)
    ensures Open(g, c, torn).Opened?
  {
    var f := g.frames;
    TidyCutOpens(f, if Numbered(f, |f|) then |f| else |f| - 1, c, torn);
  }

  /** The leader does not write behind a failed write. */
  predicate Orderly(s: State, a: Action) {
    a.WriteOk? || a.WriteFail? ==> Aligned(s.log)
  }

  lemma AppendFrames(g: Seg, from: nat, to: nat, k: nat, torn: bool)
    requires Aligned(g) && from < to && k <= to - from && (torn ==> k < to - from)
    ensures Stopped(Append(g, from, to, k, torn))
    ensures k == to - from ==> Aligned(Append(g, from, to, k, torn))
  {
    var r := Append(g, from, to, k, torn).frames;
    forall i | 0 <= i < |g.frames| + k ensures r[i].Record? && r[i].num == i {
      if i >= |g.frames| { assert r[i] == Frames(g.counter, from, k)[i - |g.frames|]; }
    }
  }

  lemma OrderlyWrite(s: State, a: Action)
    requires Inv(s) && Enabled(s, a) && Orderly(s, a) && (a.WriteOk? || a.WriteFail?)
    ensures Stopped(Next(s, a).log)
  {
    var p := s.q.leaders[a.t].phase;
    match a
    case WriteOk(t) => AppendFrames(s.log, p.from, p.to, p.to - p.from, false);
    case WriteFail(t, k, torn) => AppendFrames(s.log, p.from, p.to, k, torn);
  }

  lemma HeaderFailStops(s: State, t: nat)
    requires Inv(s) && Enabled(s, HeaderFail(t)) && Stopped(s.log)
    ensures Stopped(Next(s, HeaderFail(t)).log)
  {
    assert LeaderOk(s, s.q.leaders[t]);
  }

  lemma OrderlyStep(s: State, a: Action)
    requires Inv(s) && Enabled(s, a) && Orderly(s, a) && AllStopped(s)
    ensures AllStopped(Next(s, a))
  {
    match a
    case WriteOk(_) => OrderlyWrite(s, a);
    case WriteFail(_, _, _) => OrderlyWrite(s, a);
    case HeaderFail(t) => HeaderFailStops(s, t);
    case _ =>
  }

  lemma {:induction false} OrderlyRun(trace: seq<State>, acts: seq<Action>, i: nat)
    requires IsRun(trace, acts) && i <= |acts| && forall j | 0 <= j < i :: Orderly(trace[j], acts[j])
    ensures AllStopped(trace[i])
  {
    if i > 0 {
      OrderlyRun(trace, acts, i - 1);
      RunKeepsInv(trace, acts, i - 1);
      assert StepAt(trace, acts, i - 1);
      OrderlyStep(trace[i - 1], acts[i - 1]);
    }
  }

  /** In every run in which no batch is written behind a failed write, every crash leaves a
      log that opens. */
  lemma OrderlyRunOpens(trace: seq<State>, acts: seq<Action>, i: nat, g: Seg, c: nat, torn: bool)
    requires IsRun(trace, acts) && i <= |acts| && forall j | 0 <= j < i :: Orderly(trace[j], acts[j])
    requires Crash(trace[i], g, c, torn)
    ensures Open(g, c, torn).Opened?
  {
    OrderlyRun(trace, acts, i);
    StoppedOpens(g, c, torn);
  }

  /** One write behind a stop, exactly: the segment is unreadable from then on if its header is
      missing, if record numbers were skipped and no cut record marks the place, or if at most
      32 were skipped behind a cut one. */
  lemma WriteRefusedIff(g: Seg, from: nat, to: nat)
    requires Stopped(g) && from < to && |g.frames| <= g.counter
    ensures var r := Append(g, from, to, to - from, false);
            Open(r, |r.frames|, false) == Refused <==>
            || g.headless
            || (if Numbered(g.frames, |g.frames|) then g.counter != |g.frames|
                else g.counter < |g.frames| + 32)
  {
    var f := g.frames;
    var late := Frames(g.counter, from, to - from);
    var r := Append(g, from, to, to - from, false);
    assert Cut(r.frames, |r.frames|, false) == f + late;
    LateRefusedIff(f, if Numbered(f, |f|) then |f| else |f| - 1, g.counter, late);
  }

  // ----- What faults leave

  /** No segment is begun within the steps `acts[i..j]`. */
  predicate SameSegment(acts: seq<Action>, i: nat, j: nat)
    requires j <= |acts|
  {
    forall k | i <= k < j :: !acts[k].Truncate?
  }

  lemma {:induction false} StaysLost(trace: seq<State>, acts: seq<Action>, i: nat, j: nat)
    requires IsRun(trace, acts) && i <= j <= |acts| && trace[i].log.lost && SameSegment(acts, i, j)
    ensures trace[j].log.lost && trace[j].log.synced == trace[i].log.synced
    decreases j - i
  {
    if i < j {
      StaysLost(trace, acts, i, j - 1);
      assert StepAt(trace, acts, j - 1);
    }
  }

  /** In every run: once a sync of a segment has failed, no later one counts for it, since the pages it
      was to write may be gone. */
  lemma FailedSyncStays(trace: seq<State>, acts: seq<Action>, i: nat, j: nat)
    requires IsRun(trace, acts) && i < j <= |acts| && acts[i].SyncFail? && SameSegment(acts, i, j)
    ensures trace[j].log.synced == trace[i].log.synced
  {
    assert StepAt(trace, acts, i);
    StaysLost(trace, acts, i + 1, j);
  }

  lemma {:induction false} StaysHeadless(trace: seq<State>, acts: seq<Action>, i: nat, j: nat)
    requires IsRun(trace, acts) && i <= j <= |acts| && trace[i].log.headless && SameSegment(acts, i, j)
    ensures trace[j].log.headless
    decreases j - i
  {
    if i < j {
      StaysHeadless(trace, acts, i, j - 1);
      assert StepAt(trace, acts, j - 1);
    }
  }

  /** In every run: once the header of a segment could not be written, no crash that leaves a frame of
      it leaves one that opens. */
  lemma HeadlessRefused(trace: seq<State>, acts: seq<Action>, i: nat, j: nat, c: nat, torn: bool)
    requires IsRun(trace, acts) && i < j <= |acts| && acts[i].HeaderFail? && SameSegment(acts, i, j)
    requires 0 < c <= |trace[j].log.frames|
    ensures Open(trace[j].log, c, torn) == Refused
  {
    assert StepAt(trace, acts, i);
    StaysHeadless(trace, acts, i + 1, j);
    assert Cut(trace[j].log.frames, c, torn) != [];
  }

  lemma {:induction false} StaysShadow(trace: seq<State>, acts: seq<Action>, g: Seg, i: nat, j: nat)
    requires IsRun(trace, acts) && i <= j <= |acts| && g in trace[i].shadows && forall k | i <= k < j :: !acts[k].HeaderOk?
    ensures g in trace[j].shadows
    decreases j - i
  {
    if i < j {
      StaysShadow(trace, acts, g, i, j - 1);
      assert StepAt(trace, acts, j - 1);
    }
  }

  /** In every run: until the header of the next segment is written, a crash can bring back the segment
      that was truncated, as any crash could have left it before. */
  lemma TruncatedReturns(trace: seq<State>, acts: seq<Action>, i: nat, j: nat, c: nat, torn: bool)
    requires IsRun(trace, acts) && i < j <= |acts| && acts[i].Truncate? && forall k | i <= k < j :: !acts[k].HeaderOk?
    requires Crash(trace[i], trace[i].log, c, torn)
    ensures Crash(trace[j], trace[i].log, c, torn)
  {
    assert StepAt(trace, acts, i);
    StaysShadow(trace, acts, trace[i].log, i + 1, j);
  }
}
