/** Runs of `GroupCommit` that end where the documentation says they should not: a log that no
    restart can read, a batch that a restart brings back in part, and an acknowledged write that
    a restart does not bring back. */
module DurabilityLimits {
  import opened Basics
  import opened Lsm
  import opened Recovery
  import opened Segment
  import opened GroupCommit
  import opened Durability
  import S = Ssts
  import L = SstsLimits

  /** Some sequence of steps leads from `s` to `r`. */
  ghost predicate Leads(s: State, r: State) {
    exists acts: seq<Action> :: Steps(s, acts, r)
  }

  lemma {:induction false} StepsSnoc(s: State, acts: seq<Action>, r: State, a: Action)
    requires Steps(s, acts, r) && RangeOk(r.q) && Enabled(r, a)
    ensures Steps(s, acts + [a], Next(r, a))
    decreases |acts|
  {
    if acts == [] {
      assert (acts + [a])[0] == a && (acts + [a])[1..] == [];
      assert Steps(Next(r, a), [], Next(r, a));
    } else {
      StepsSnoc(Next(s, acts[0]), acts[1..], r, a);
      assert (acts + [a])[1..] == acts[1..] + [a];
    }
  }

  lemma LeadsSelf(s: State)
    ensures Leads(s, s)
  {
    assert Steps(s, [], s);
  }

  lemma LeadsNext(s: State, r: State, a: Action)
    requires Leads(s, r) && RangeOk(r.q) && Enabled(r, a)
    ensures Leads(s, Next(r, a))
  {
    var acts: seq<Action> :| Steps(s, acts, r);
    StepsSnoc(s, acts, r, a);
  }

  // ----- A batch behind a failed write

  /** One leader `t`, with a batch in hand and more operations queued behind it; nothing has
      failed so far. */
  ghost predicate Loaded(s: State, t: nat, done: nat) {
    && s.q.leaders == map[t := Leader(done, Work(Drained, s.q.completed, s.q.drained))]
    && s.q.completed < s.q.drained < |s.mem.ends| && !s.mem.busy && s.mem.flusher == Nobody
    && Aligned(s.log) && !s.log.lost && s.shadows == []
  }

  lemma NothingLands(g: Seg, from: nat, to: nat)
    requires from <= to
    ensures Append(g, from, to, 0, false) == g.(counter := g.counter + (to - from))
  {
    assert Append(g, from, to, 0, false).frames == g.frames;
  }

  /** The write fails with nothing written, say for want of space; its numbers are used up. */
  lemma LeadsFault(i: State, s: State, t: nat, done: nat) returns (r: State)
    requires Leads(i, s) && Loaded(s, t, done)
    ensures Leads(i, r)
    ensures r == s.(log := s.log.(counter := s.log.counter + (s.q.drained - s.q.completed)),
                    q := s.q.(leaders := map[t := Leader(done, Work(Failed, s.q.completed, s.q.drained))]))
  {
    LeadsNext(i, s, WriteFail(t, 0, false));
    NothingLands(s.log, s.q.completed, s.q.drained);
    r := Next(s, WriteFail(t, 0, false));
    assert r.q.leaders == map[t := Leader(done, Work(Failed, s.q.completed, s.q.drained))];
  }

  lemma LeadsFaultTold(i: State, s: State, t: nat, done: nat) returns (r: State)
    requires Leads(i, s) && Loaded(s, t, done)
    ensures Leads(i, r) && r.mem == s.mem && r.shadows == []
    ensures r.log == s.log.(counter := s.log.counter + (s.q.drained - s.q.completed))
    ensures r.q.leaders == map[t := Leader(done + 1, Top)] && r.q.drained == s.q.drained
  {
    var s1 := LeadsFault(i, s, t, done);
    LeadsNext(i, s1, Publish(t));
    r := Next(s1, Publish(t));
  }

  /** A batch that is written. */
  lemma LeadsWritten(i: State, s: State, t: nat, done: nat, stage: Stage, from: nat, to: nat) returns (r: State)
    requires Leads(i, s) && s.q.leaders == map[t := Leader(done, Work(stage, from, to))] && from < to
    requires (stage == Drained || stage == Ready) && s.mem.flusher == Nobody
    ensures Leads(i, r)
    ensures r == s.(log := Append(s.log, from, to, to - from, false),
                    q := s.q.(leaders := map[t := Leader(done, Work(Written, from, to))]))
  {
    LeadsNext(i, s, WriteOk(t));
    r := Next(s, WriteOk(t));
    assert r.q.leaders == map[t := Leader(done, Work(Written, from, to))];
  }

  /** A batch that is written and synced. */
  lemma LeadsSynced(i: State, s: State, t: nat, done: nat, stage: Stage, from: nat, to: nat) returns (r: State)
    requires Leads(i, s) && s.q.leaders == map[t := Leader(done, Work(stage, from, to))] && from < to
    requires (stage == Drained || stage == Ready) && s.mem.flusher == Nobody && !s.log.lost
    ensures Leads(i, r) && r.disk == s.disk && r.mem == s.mem && r.shadows == s.shadows
    ensures var g := Append(s.log, from, to, to - from, false); r.log == g.(synced := |g.frames|)
    ensures r.q == s.q.(leaders := map[t := Leader(done, Work(Synced, from, to))])
  {
    var s1 := LeadsWritten(i, s, t, done, stage, from, to);
    LeadsNext(i, s1, SyncOk(t));
    r := Next(s1, SyncOk(t));
    assert r.q.leaders == map[t := Leader(done, Work(Synced, from, to))];
  }

  /** The same leader goes on with the operations queued behind. */
  lemma LeadsLate(i: State, s: State, t: nat, done: nat) returns (r: State)
    requires Leads(i, s) && s.q.leaders == map[t := Leader(done, Top)] && done < MAX_LEADER_BATCHES
    requires s.q.drained < |s.mem.ends| && !s.mem.busy && s.mem.flusher == Nobody && s.shadows == [] && !s.log.lost
    ensures Leads(i, r) && r.shadows == []
    ensures var g := Append(s.log, s.q.drained, |s.mem.ends|, |s.mem.ends| - s.q.drained, false);
            r.log == g.(synced := |g.frames|)
  {
    LeadsNext(i, s, Drain(t));
    var s1 := Next(s, Drain(t));
    assert s1.q.leaders == map[t := Leader(done, Work(Drained, s.q.drained, |s.mem.ends|))];
    r := LeadsSynced(i, s1, t, done, Drained, s.q.drained, |s.mem.ends|);
  }

  /** From every such state a failed write leads to one from which no crash, and no orderly
      restart either, gives a log that opens. */
  lemma FaultMakesLogUnreadable(s: State, t: nat, done: nat)
    requires Loaded(s, t, done) && done + 1 < MAX_LEADER_BATCHES
    ensures exists r: State :: Leads(s, r) && forall g, c, torn :: Crash(r, g, c, torn) ==> Open(g, c, torn) == Refused
  {
    LeadsSelf(s);
    var s1 := LeadsFaultTold(s, s, t, done);
    var r := LeadsLate(s, s1, t, done + 1);
    WriteRefusedIff(s1.log, s1.q.drained, |s1.mem.ends|);
    forall g, c, torn | Crash(r, g, c, torn) ensures Open(g, c, torn) == Refused {
      assert g == r.log && c == |g.frames| && !torn;
    }
  }

  /** A writer with one update takes its ticket. */
  lemma LeadsOp(i: State, s: State, l: Layer) returns (r: State)
    requires Leads(i, s) && RangeOk(s.q) && !s.mem.busy && E(s.mem, |s.mem.ends|) == |s.mem.hist| && l != map[]
    ensures Leads(i, r) && r.disk == s.disk && r.log == s.log && r.shadows == s.shadows && r.q == Enqueued(s.q, |s.mem.ends|)
    ensures r.mem == s.mem.(hist := s.mem.hist + [l], active := s.mem.active + l,
                            ends := s.mem.ends + [|s.mem.hist| + 1])
  {
    LeadsNext(i, s, Begin);
    var s1 := Next(s, Begin);
    LeadsNext(i, s1, Apply(l));
    var s2 := Next(s1, Apply(l));
    LeadsNext(i, s2, Enqueue);
    r := Next(s2, Enqueue);
  }

  /** A process that has opened `files` and found no WAL records. */
  function Fresh(files: seq<File>, next: nat): (s: State) {
    Start(files, next, [], [], 0)
  }

  /** A first operation, in the hands of the leader that queued it. */
  lemma LeadsFirst(files: seq<File>, next: nat, l: Layer) returns (r: State)
    requires l != map[]
    ensures Leads(Fresh(files, next), r) && r.disk == Layers(files)
    ensures r.log == Seg(0, [], 0, 0, false, false, 0) && r.shadows == []
    ensures r.mem == Mem([l], [1], false, l, None, S.Opening(files, next), 0, 0, 0, Nobody)
    ensures r.q == Queue(1, true, map[0 := Leader(0, Work(Drained, 0, 1))], {}, {}, false, 0, None, 0, 0)
  {
    var i := Fresh(files, next);
    LeadsSelf(i);
    var s := LeadsOp(i, i, l);
    LeadsNext(i, s, Drain(0));
    r := Next(s, Drain(0));
  }

  /** Loaded states occur: two writers are enough. */
  lemma LoadedReachable(files: seq<File>, next: nat, l: Layer)
    requires l != map[]
    ensures exists s: State :: Leads(Fresh(files, next), s) && Loaded(s, 0, 0)
  {
    var s := LeadsFirst(files, next, l);
    var r := LeadsOp(Fresh(files, next), s, l);
    assert Loaded(r, 0, 0);
  }

  // ----- A batch in part

  lemma LeadsPublished(i: State, s: State, t: nat, done: nat, from: nat, to: nat) returns (r: State)
    requires Leads(i, s) && s.q.leaders == map[t := Leader(done, Work(Synced, from, to))] && from < to
    ensures Leads(i, r) && r == s.(q := r.q)
    ensures r.q == s.q.(leaders := map[t := Leader(done + 1, Top)], completed := if s.q.completed < to then to else s.q.completed)
  {
    LeadsNext(i, s, Publish(t));
    r := Next(s, Publish(t));
    assert r.q.leaders == map[t := Leader(done + 1, Top)];
  }

  lemma FirstRecord(g: Seg, from: nat)
    requires g.frames == [] && g.counter == g.good == 0 && g.base == from
    ensures Append(g, from, from + 1, 1, false) == g.(frames := [Record(0, from)], counter := 1, good := 1)
  {
    assert Append(g, from, from + 1, 1, false).frames == [Record(0, from)];
  }

  lemma LeadsFirstSynced(i: State, s: State, t: nat, done: nat, stage: Stage, from: nat) returns (r: State)
    requires Leads(i, s) && s.q.leaders == map[t := Leader(done, Work(stage, from, from + 1))]
    requires stage == Drained || stage == Ready
    requires s.mem.flusher == Nobody && s.log == Seg(from, [], 0, 0, false, false, 0)
    ensures Leads(i, r) && r.disk == s.disk && r.mem == s.mem && r.shadows == s.shadows
    ensures r.log == Seg(from, [Record(0, from)], 1, 1, false, false, 1)
    ensures r.q == s.q.(leaders := map[t := Leader(done, Work(Synced, from, from + 1))])
  {
    FirstRecord(s.log, from);
    r := LeadsSynced(i, s, t, done, stage, from, from + 1);
  }

  /** The first operation is written, synced and acknowledged. */
  lemma LeadsDurable(files: seq<File>, next: nat, l: Layer) returns (r: State)
    requires l != map[]
    ensures Leads(Fresh(files, next), r) && r.disk == Layers(files) && r.shadows == []
    ensures r.log == Seg(0, [Record(0, 0)], 1, 1, false, false, 1)
    ensures r.mem == Mem([l], [1], false, l, None, S.Opening(files, next), 0, 0, 0, Nobody)
    ensures r.q == Queue(1, true, map[0 := Leader(1, Top)], {}, {}, false, 1, None, 0, 0)
  {
    var i := Fresh(files, next);
    var s := LeadsFirst(files, next, l);
    var s1 := LeadsFirstSynced(i, s, 0, 0, Drained, 0);
    r := LeadsPublished(i, s1, 0, 0, 0, 1);
  }

  /** A flush in the background. */
  lemma LeadsFlushed(i: State, s: State) returns (r: State)
    requires Leads(i, s) && RangeOk(s.q) && s.mem.flusher == Nobody && s.mem.active != map[]
    ensures Leads(i, r) && r == s.(mem := r.mem)
    ensures r.mem == s.mem.(active := map[], parked := None, cut := |s.mem.hist|, kept := |s.mem.hist|,
                            stored := |s.mem.hist|, store := S.After(s.mem.store, S.Flush(s.mem.active)))
  {
    LeadsNext(i, s, Park(Anyone));
    var s1 := Next(s, Park(Anyone));
    LeadsNext(i, s1, FlushOk);
    r := Next(s1, FlushOk);
  }

  lemma NotEmpty(a: Layer, b: Layer)
    requires b != map[]
    ensures a + b != map[]
  {
    var k :| k in b;
    assert k in a + b;
  }

  /** A second one is applied and flushed before the log has it. */
  lemma LeadsFlushedEarly(files: seq<File>, next: nat, l0: Layer, l1: Layer) returns (r: State)
    requires l0 != map[] && l1 != map[]
    ensures Leads(Fresh(files, next), r) && r.disk == Layers(files)
    ensures r.log == Seg(0, [Record(0, 0)], 1, 1, false, false, 1)
    ensures r.mem.hist == [l0, l1] && r.mem.ends == [1, 2]
    ensures r.mem.store.disk == [File(next, l0 + l1)] + files
  {
    var i := Fresh(files, next);
    var s := LeadsDurable(files, next, l0);
    var s1 := LeadsOp(i, s, l1);
    NotEmpty(l0, l1);
    r := LeadsFlushed(i, s1);
  }

  lemma ReplayedFirst(f: seq<Frame>, u: nat, ops: seq<Layer>)
    requires f != [] && f[0] == Record(0, u) && u < |ops|
    ensures Readable(f, 1, ops) && Replayed(f, 1, ops) == ops[u]
  {
    assert Replayed(f, 0, ops) == map[];
    assert map[] + ops[u] == ops[u];
  }

  lemma OneRecordOpens(g: Seg, u: nat)
    requires g.frames == [Record(0, u)] && !g.headless
    ensures Open(g, 1, false) == Opened(1)
  {
    assert Cut(g.frames, 1, false) == [Record(0, u)];
    TidyOpens([Record(0, u)], 1);
  }

  /** What operation `u` did, if it was one update. */
  lemma OneUpdate(m: Mem, u: nat)
    requires Increasing(m.ends, |m.hist|) && u < |m.ends| && E(m, u) == u && m.ends[u] == u + 1
    ensures Ops(m)[u] == m.hist[u]
  {
    assert Overlay(m.hist, u, u) == map[];
    assert Stretch(m, u, u + 1) == map[] + m.hist[u];
  }

  /** `put_batch` is documented to land as a whole or not at all.  Here `l1` is one batch, of
      the keys `a` and `b`; after a crash that loses nothing that was written, the restart has
      the older `a` with the newer `b`. */
  lemma BatchComesBackInPart(files: seq<File>, next: nat, l0: Layer, l1: Layer, a: Key, b: Key)
    requires a in l0 && b !in l0 && a in l1 && b in l1
    ensures exists s: State ::
              && Leads(Fresh(files, next), s) && s.mem.hist == [l0, l1]
              && Crash(s, s.log, 1, false) && Open(s.log, 1, false) == Opened(1)
              && Increasing(s.mem.ends, |s.mem.hist|) && Readable(s.log.frames, 1, Ops(s.mem))
              && Restarted(s, s.log, 1, false, s.mem.store.disk, a) == Visible(Some(l0[a]))
              && Restarted(s, s.log, 1, false, s.mem.store.disk, b) == Visible(Some(l1[b]))
  {
    var s := LeadsFlushedEarly(files, next, l0, l1);
    OneRecordOpens(s.log, 0);
    OneUpdate(s.mem, 0);
    ReplayedFirst(s.log.frames, 0, Ops(s.mem));
    ViewOver(l0, Layers(s.mem.store.disk), a);
    ViewOver(l0, Layers(s.mem.store.disk), b);
    S.ViewCons(File(next, l0 + l1), files, b);
  }

  // ----- An acknowledged write that is lost

  /** A leader with a batch in hand flushes everything and starts the segment afresh. */
  lemma LeadsRotated(i: State, s: State, t: nat, done: nat, from: nat, to: nat) returns (r: State)
    requires Leads(i, s) && s.q.leaders == map[t := Leader(done, Work(Drained, from, to))] && from < to
    requires s.mem.flusher == Nobody && s.mem.active != map[]
    ensures Leads(i, r) && r.disk == s.disk && r.shadows == [] && r.log == Seg(from, [], 0, 0, false, false, 0)
    ensures r.mem == s.mem.(active := map[], parked := None, cut := |s.mem.hist|, kept := |s.mem.hist|,
                            stored := |s.mem.hist|, store := S.After(s.mem.store, S.Flush(s.mem.active)))
    ensures r.q == s.q.(leaders := map[t := Leader(done, Work(Ready, from, to))])
  {
    var s1 := LeadsLeaderFlush(i, s, t, done, from, to);
    LeadsNext(i, s1, Truncate(t));
    var s2 := Next(s1, Truncate(t));
    assert s2.q.leaders == map[t := Leader(done, Work(Truncated, from, to))];
    LeadsNext(i, s2, HeaderOk(t));
    r := Next(s2, HeaderOk(t));
    assert r.q.leaders == map[t := Leader(done, Work(Ready, from, to))];
  }

  lemma LeadsLeaderFlush(i: State, s: State, t: nat, done: nat, from: nat, to: nat) returns (r: State)
    requires Leads(i, s) && s.q.leaders == map[t := Leader(done, Work(Drained, from, to))] && from < to
    requires s.mem.flusher == Nobody && s.mem.active != map[]
    ensures Leads(i, r) && r.disk == s.disk && r.log == s.log && r.shadows == s.shadows
    ensures r.mem == s.mem.(active := map[], parked := None, cut := |s.mem.hist|, kept := |s.mem.hist|,
                            stored := |s.mem.hist|, store := S.After(s.mem.store, S.Flush(s.mem.active)))
    ensures r.q == s.q.(leaders := map[t := Leader(done, Work(Flushed, from, to))])
  {
    LeadsNext(i, s, Park(Leading(t)));
    var s1 := Next(s, Park(Leading(t)));
    LeadsNext(i, s1, FlushOk);
    r := Next(s1, FlushOk);
    assert r.q.leaders == map[t := Leader(done, Work(Flushed, from, to))];
  }

  /** `l` has what `l0` has, where `l1` does not touch it. */
  ghost predicate Keeps(l: Layer, l0: Layer, l1: Layer) {
    forall k | k in l0 && k !in l1 :: k in l && l[k] == l0[k]
  }

  /** The second operation, behind a rotation that has put both into an SST. */
  lemma LeadsSecond(files: seq<File>, next: nat, l0: Layer, l1: Layer) returns (r: State, l: Layer)
    requires l0 != map[] && l1 != map[]
    ensures Leads(Fresh(files, next), r) && r.disk == Layers(files) && r.shadows == []
    ensures r.log == Seg(1, [Record(0, 1)], 1, 1, false, false, 1)
    ensures r.mem == Mem([l0, l1], [1, 2], false, map[], None,
                         S.After(S.Opening(files, next), S.Flush(l)), 2, 2, 2, Nobody)
    ensures r.q == Queue(2, true, map[0 := Leader(2, Top)], {}, {}, false, 2, None, 0, 0)
    ensures Keeps(l, l0, l1)
  {
    var i := Fresh(files, next);
    l := l0 + l1;
    var s := LeadsDurable(files, next, l0);
    var s1 := LeadsOp(i, s, l1);
    NotEmpty(l0, l1);
    LeadsNext(i, s1, Drain(0));
    var s2 := Next(s1, Drain(0));
    assert s2.q.leaders == map[0 := Leader(1, Work(Drained, 1, 2))];
    var s3 := LeadsRotated(i, s2, 0, 1, 1, 2);
    var s4 := LeadsFirstSynced(i, s3, 0, 1, Ready, 1);
    r := LeadsPublished(i, s4, 0, 1, 1, 2);
  }

  lemma LeadsCompact(i: State, s: State, c: S.Change) returns (r: State)
    requires Leads(i, s) && RangeOk(s.q) && s.mem.flusher == Nobody && S.Can(s.mem.store, c) && CanCompact(s.mem, c)
    ensures Leads(i, r) && r == s.(mem := s.mem.(store := S.After(s.mem.store, c)))
  {
    LeadsNext(i, s, Compact(c));
    r := Next(s, Compact(c));
  }

  /** A partial compaction of the two files there are, which fails when it has unlinked one. */
  lemma LeadsBroken(i: State, s: State, run: seq<File>, next: nat) returns (r: State)
    requires Leads(i, s) && RangeOk(s.q) && s.mem.flusher == Nobody && |run| == 2
    requires L.Fit(run, next) && s.mem.store == S.Opening(run, next)
    ensures Leads(i, r) && r == s.(mem := s.mem.(store := S.Store(AbortedDisk([], run, [], 0), run, next, S.NoJob)))
  {
    var s1 := LeadsCompact(i, s, S.StartPartial(0, 1));
    assert [] + run + [] == run;
    assert s1.mem.store == L.RunStarted([], run, [], next);
    L.AbortedIs([], run, [], next, 0);
    r := LeadsCompact(i, s1, S.Abort(0));
  }

  /** A third operation is flushed, and a full compaction follows. */
  lemma LeadsMerged(i: State, s: State, l: Layer, st: S.Store) returns (r: State)
    requires Leads(i, s) && RangeOk(s.q) && s.mem.flusher == Nobody && !s.mem.busy && s.q.active
    requires s.mem.active == map[] && E(s.mem, |s.mem.ends|) == |s.mem.hist| && l != map[]
    requires st == S.After(s.mem.store, S.Flush(l)) && st.job.NoJob?
    ensures Leads(i, r) && r.disk == s.disk && r.log == s.log && r.shadows == s.shadows && r.q == s.q
    ensures r.mem.hist == s.mem.hist + [l] && r.mem.ends == s.mem.ends + [|s.mem.hist| + 1]
    ensures r.mem.store == S.Compacted(st)
  {
    var s1 := LeadsOp(i, s, l);
    assert s1.mem.active == l;
    var s2 := LeadsFlushed(i, s1);
    var s3 := LeadsCompact(i, s2, S.StartFull);
    r := LeadsCompact(i, s3, S.Commit);
  }

  function BrokenStore(run: seq<File>, next: nat): (st: S.Store)
    requires run != []
  {
    S.Store(AbortedDisk([], run, [], 0), run, next, S.NoJob)
  }

  lemma FlushedStore(a: File, next: nat, l: Layer) returns (run: seq<File>)
    requires a.number < next
    ensures |run| == 2 && run[0] == File(next, l) && run[1] == a && L.Fit(run, next + 1)
    ensures S.After(S.Opening([a], next), S.Flush(l)) == S.Opening(run, next + 1)
  {
    run := [File(next, l), a];
    L.FlushedList([a], File(next, l));
    assert [File(next, l)] + [a] == run;
  }

  /** The second operation is acknowledged, and a partial compaction has broken off. */
  lemma LeadsSecondBroken(a: File, next: nat, l0: Layer, l1: Layer) returns (s: State, run: seq<File>)
    requires a.number < next && l0 != map[] && l1 != map[]
    ensures Leads(Fresh([a], next), s) && s.disk == Layers([a]) && s.shadows == []
    ensures |run| == 2 && run[1] == a && L.Fit(run, next + 1) && Keeps(run[0].layer, l0, l1)
    ensures s.log == Seg(1, [Record(0, 1)], 1, 1, false, false, 1)
    ensures s.mem == Mem([l0, l1], [1, 2], false, map[], None, BrokenStore(run, next + 1), 2, 2, 2, Nobody)
    ensures s.q == Queue(2, true, map[0 := Leader(2, Top)], {}, {}, false, 2, None, 0, 0)
  {
    var s1, l := LeadsSecond([a], next, l0, l1);
    run := FlushedStore(a, next, l);
    s := LeadsBroken(Fresh([a], next), s1, run, next + 1);
  }

  lemma BrokenFlush(run: seq<File>, next: nat, l: Layer)
    requires run != []
    ensures S.After(BrokenStore(run, next), S.Flush(l)) == L.AbortedStore([], run, [], next, 0, l)
  {
    var none: seq<File> := [];
    assert none + run + none == run;
    L.AbortedFlush(none, run, none, next, 0, l);
  }

  lemma LostFromStore(run: seq<File>, next: nat, l: Layer, k: Key, v: Bytes)
    requires |run| == 2 && L.Fit(run, next) && k in run[0].layer && run[0].layer[k] == Data(v)
    requires k !in run[1].layer && k !in l
    ensures S.Durable(S.Compacted(L.AbortedStore([], run, [], next, 0, l)), k) == None
  {
    var none: seq<File> := [];
    assert none + run + none == run;
    L.AbortedCompactionLoses(none, run, none, next, 0, l, 0, k, v);
  }

  lemma BrokenLoses(run: seq<File>, next: nat, l: Layer, k: Key, v: Bytes) returns (st: S.Store)
    requires |run| == 2 && L.Fit(run, next) && k in run[0].layer && run[0].layer[k] == Data(v)
    requires k !in run[1].layer && k !in l
    ensures st == S.After(BrokenStore(run, next), S.Flush(l)) && st.job.NoJob?
    ensures S.Durable(S.Compacted(st), k) == None
  {
    st := L.AbortedStore([], run, [], next, 0, l);
    BrokenFlush(run, next, l);
    LostFromStore(run, next, l, k, v);
  }

  /** The state in which the write of `k` is gone. */
  lemma LeadsLost(a: File, next: nat, l0: Layer, l1: Layer, l2: Layer, k: Key, v: Bytes) returns (s: State)
    requires a.number < next && k in l0 && l0[k] == Data(v)
    requires k !in l1 && k !in l2 && k !in a.layer && l1 != map[] && l2 != map[]
    ensures Leads(Fresh([a], next), s) && Acked(s.q) == 2 && s.q.replayed == 0 && s.shadows == []
    ensures s.disk == Layers([a]) && s.log == Seg(1, [Record(0, 1)], 1, 1, false, false, 1)
    ensures s.mem.hist == [l0, l1, l2] && s.mem.ends == [1, 2, 3]
    ensures S.Durable(s.mem.store, k) == None
  {
    assert l0 != map[];
    var s1, run := LeadsSecondBroken(a, next, l0, l1);
    s := LeadsForgotten(Fresh([a], next), s1, run, next + 1, l2, k, v);
  }

  lemma LeadsForgotten(i: State, s: State, run: seq<File>, next: nat, l: Layer, k: Key, v: Bytes) returns (r: State)
    requires Leads(i, s) && RangeOk(s.q) && s.mem.flusher == Nobody && !s.mem.busy && s.q.active
    requires s.mem.active == map[] && E(s.mem, |s.mem.ends|) == |s.mem.hist| && l != map[]
    requires |run| == 2 && L.Fit(run, next) && s.mem.store == BrokenStore(run, next)
    requires k in run[0].layer && run[0].layer[k] == Data(v) && k !in run[1].layer && k !in l
    ensures Leads(i, r) && r.disk == s.disk && r.log == s.log && r.shadows == s.shadows && r.q == s.q
    ensures r.mem.hist == s.mem.hist + [l] && r.mem.ends == s.mem.ends + [|s.mem.hist| + 1]
    ensures S.Durable(r.mem.store, k) == None
  {
    var st := BrokenLoses(run, next, l, k, v);
    r := LeadsMerged(i, s, l, st);
  }

  /** `k` has its value after the first operation and ever after. */
  lemma KeepsValue(disk: seq<Layer>, l0: Layer, l1: Layer, l2: Layer, q: nat, k: Key)
    requires k in l0 && k !in l1 && k !in l2 && 1 <= q <= 3
    ensures Value(disk, [l0, l1, l2], q, k) == Visible(Some(l0[k]))
  {
    var h := [l0, l1, l2];
    assert Overlay(h, 0, 0) == map[];
    assert Overlay(h, 0, 1) == map[] + l0;
    assert Overlay(h, 0, 2) == Overlay(h, 0, 1) + l1;
    assert Overlay(h, 0, 3) == Overlay(h, 0, 2) + l2;
  }

  /** The first operation wrote `k` and was acknowledged; nothing has touched `k` since.  A
      partial compaction failed when it had unlinked an input, a flush and a full compaction
      followed; a crash that loses nothing that was written leaves a store without `k`. */
  lemma AcknowledgedWriteLost(a: File, next: nat, l0: Layer, l1: Layer, l2: Layer, k: Key, v: Bytes)
    requires a.number < next && k in l0 && l0[k] == Data(v)
    requires k !in l1 && k !in l2 && k !in a.layer && l1 != map[] && l2 != map[]
    ensures exists s: State ::
              && Leads(Fresh([a], next), s) && s.q.replayed == 0 < Acked(s.q)
              && Crash(s, s.log, 1, false) && Open(s.log, 1, false) == Opened(1)
              && Increasing(s.mem.ends, |s.mem.hist|) && Readable(s.log.frames, 1, Ops(s.mem))
              && Restarted(s, s.log, 1, false, s.mem.store.disk, k) == None
              && !Since(s.disk, s.mem, 1, None, k)
  {
    var s := LeadsLost(a, next, l0, l1, l2, k, v);
    OneRecordOpens(s.log, 1);
    OneUpdate(s.mem, 1);
    ReplayedFirst(s.log.frames, 1, Ops(s.mem));
    ViewOver(l1, Layers(s.mem.store.disk), k);
    forall q: nat | 1 <= q <= 3 ensures Value(s.disk, s.mem.hist, q, k) != None {
      KeepsValue(s.disk, l0, l1, l2, q, k);
    }
  }
}
