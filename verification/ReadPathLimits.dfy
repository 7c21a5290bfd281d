/** Where the reads of `ReadPath` do not return what they should: a reader between its two memtable
    probes when a failed flush drops the parked map, and a hit in the hot tier before a write has
    invalidated it. */
module ReadPathLimits {
  import opened Basics
  import opened Lsm
  import opened ReadPath
  import S = Ssts

  // ----- What a caller can check

  /** A bound on the lengths of the values. */
  ghost function Longest(vs: set<Option<Bytes>>): (n: nat)
    ensures forall v | v in vs && v.Some? :: |v.value| <= n
  {
    if vs == {} then 0
    else
      var v :| v in vs;
      var n := Longest(vs - {v});
      if v.Some? && |v.value| > n then |v.value| else n
  }

  lemma NewValue(vs: set<Option<Bytes>>) returns (w: Bytes)
    ensures Some(w) !in vs
  {
    w := seq(Longest(vs) + 1, _ => 0);
    assert |w| == Longest(vs) + 1;
  }

  lemma OneFileShows(k: Key, w: Bytes)
    ensures S.Listable(S.Opening([File(0, map[k := Data(w)])], 1), k, Some(w))
  {
    var l: Layer := map[k := Data(w)];
    assert Layers([File(0, l)]) == [l];
    FindOne(l, k);
  }

  /** Dropping the parked map is harmless whatever the SSTs hold, exactly when no reader is between
      its two memtable probes for a key that is parked. */
  lemma ClearSafeIff(s: State)
    ensures (forall st: S.Store :: Covered(s.(store := st))) <==> (forall t | t in s.readers :: !Caught(s, t))
  {
    if t :| t in s.readers && Caught(s, t) {
      var k := s.readers[t].key;
      var w := NewValue(s.readers[t].seen);
      var st := S.Opening([File(0, map[k := Data(w)])], 1);
      OneFileShows(k, w);
      assert Caught(s.(store := st), t) && !Covered(s.(store := st));
    } else {
      forall st: S.Store ensures Covered(s.(store := st)) {
        assert forall t | t in s.readers :: !Caught(s.(store := st), t);
      }
    }
  }

  // ----- A reader that is not covered

  lemma RunSnoc(trace: seq<State>, acts: seq<Action>, shard: Key -> nat, a: Action)
    requires TidyRun(trace, acts, shard) && Enabled(trace[|acts|], a) && Tidy(trace[|acts|], a)
    ensures TidyRun(trace + [Next(trace[|acts|], a)], acts + [a], shard)
  {
    var more, all := trace + [Next(trace[|acts|], a)], acts + [a];
    forall i | 0 <= i < |all| ensures TidyAt(more, all, i) {
      if i < |acts| {
        assert TidyAt(trace, acts, i) && more[i] == trace[i] && more[i + 1] == trace[i + 1] && all[i] == acts[i];
      } else {
        assert more[i] == trace[i] && more[i + 1] == Next(trace[|acts|], a) && all[i] == a;
      }
    }
    forall i | 0 <= i < |all| ensures StepAt(more, all, i) { assert TidyAt(more, all, i); }
  }

  /** A reading goes on for one more step that is not the reader's last. */
  lemma ReadingSnoc(trace: seq<State>, acts: seq<Action>, a: Action, r: State, t: Tid, k: Key, b: nat)
    requires |trace| == |acts| + 1 && Reading(trace, acts, t, k, b, |acts|) && t in r.readers
    ensures Reading(trace + [r], acts + [a], t, k, b, |acts| + 1)
  {
    var more, all := trace + [r], acts + [a];
    assert all[b] == acts[b];
    forall j | b < j <= |acts| + 1 ensures t in more[j].readers {
      assert j <= |acts| ==> more[j] == trace[j];
    }
  }

  /** A run that has come to the state `s`, with `t` reading `k` since step `b`. */
  ghost predicate Underway(trace: seq<State>, acts: seq<Action>, shard: Key -> nat, t: Tid, k: Key, b: nat, s: State) {
    TidyRun(trace, acts, shard) && Reading(trace, acts, t, k, b, |acts|) && trace[|acts|] == s
  }

  lemma UnderwayNext(trace: seq<State>, acts: seq<Action>, shard: Key -> nat, t: Tid, k: Key, b: nat, s: State, a: Action)
    requires Underway(trace, acts, shard, t, k, b, s) && Enabled(s, a) && Tidy(s, a) && t in Next(s, a).readers
    ensures Underway(trace + [Next(s, a)], acts + [a], shard, t, k, b, Next(s, a))
  {
    RunSnoc(trace, acts, shard, a);
    ReadingSnoc(trace, acts, a, Next(s, a), t, k, b);
  }

  /** Some run goes on from `acts` in which `t` gets an answer that its key has not had since the
      read began. */
  ghost predicate ReadsWrong(acts: seq<Action>, shard: Key -> nat, t: Tid, k: Key, b: nat, v: Option<Bytes>) {
    exists trace: seq<State>, all: seq<Action> ::
      && TidyRun(trace, all, shard) && acts <= all && Reading(trace, all, t, k, b, |all|)
      && trace[|all|].readers[t].phase == Resolved(v)
      && forall i | b < i <= |all| :: View(Memory(trace[i]), k) != v
  }

  /** An answer is one its key has had since the read began, exactly when it has been seen. */
  lemma AnswerIff(trace: seq<State>, all: seq<Action>, shard: Key -> nat, t: Tid, k: Key, b: nat, s: State, v: Option<Bytes>)
    requires Underway(trace, all, shard, t, k, b, s)
    ensures v in s.readers[t].seen <==> exists i :: b < i <= |all| && View(Memory(trace[i]), k) == v
  {
    SeenIsHistory(trace, all, shard, t, k, b, |all|);
    forall i | b < i <= |all| ensures View(Memory(trace[i]), k) == Current(trace[i], k) {
      CurrentIsView(trace[i], k);
    }
  }

  lemma WrongAnswer(trace: seq<State>, all: seq<Action>, acts: seq<Action>, shard: Key -> nat, t: Tid, k: Key, b: nat, s: State, v: Option<Bytes>)
    requires Underway(trace, all, shard, t, k, b, s) && acts <= all
    requires s.readers[t].phase == Resolved(v) && v !in s.readers[t].seen
    ensures ReadsWrong(acts, shard, t, k, b, v)
  {
    AnswerIff(trace, all, shard, t, k, b, s, v);
  }

  /** A reader past the active map, with nothing parked, finds what the list shows. */
  lemma FallsThrough(trace: seq<State>, all: seq<Action>, shard: Key -> nat, t: Tid, k: Key, b: nat, s: State)
    returns (more: seq<State>, longer: seq<Action>, r: State)
    requires Underway(trace, all, shard, t, k, b, s) && s.readers[t].key == k
    requires s.readers[t].phase == MissedActive && s.parked.None?
    ensures longer == all + [ProbeParked(t), ProbeList(t)] && Underway(more, longer, shard, t, k, b, r)
    ensures r.readers[t].phase == Resolved(S.Live(s.store, k)) && r.readers[t].seen == s.readers[t].seen
  {
    var s1 := Next(s, ProbeParked(t));
    UnderwayNext(trace, all, shard, t, k, b, s, ProbeParked(t));
    r := Next(s1, ProbeList(t));
    UnderwayNext(trace + [s1], all + [ProbeParked(t)], shard, t, k, b, s1, ProbeList(t));
    more, longer := trace + [s1] + [r], all + [ProbeParked(t)] + [ProbeList(t)];
    assert longer == all + [ProbeParked(t), ProbeList(t)];
  }

  /** A read caught by a failed flush and going on at once: its answer is what the list shows, and
      is one its key has had since the read began exactly when it had been seen by then. */
  lemma CaughtReadIff(trace: seq<State>, acts: seq<Action>, shard: Key -> nat, t: Tid, k: Key, b: nat)
    returns (more: seq<State>, longer: seq<Action>)
    requires TidyRun(trace, acts, shard) && Reading(trace, acts, t, k, b, |acts|)
    requires Enabled(trace[|acts|], ClearFailed) && Caught(trace[|acts|], t)
    ensures longer == acts + [ClearFailed, ProbeParked(t), ProbeList(t)]
    ensures TidyRun(more, longer, shard) && Reading(more, longer, t, k, b, |longer|)
    ensures var v := S.Live(trace[|acts|].store, k);
            && more[|longer|].readers[t].phase == Resolved(v)
            && ((exists i :: b < i <= |longer| && View(Memory(more[i]), k) == v) <==> v in trace[|acts|].readers[t].seen)
  {
    var s := trace[|acts|];
    SeenIsHistory(trace, acts, shard, t, k, b, |acts|);
    var s1 := Next(s, ClearFailed);
    UnderwayNext(trace, acts, shard, t, k, b, s, ClearFailed);
    var r;
    more, longer, r := FallsThrough(trace + [s1], acts + [ClearFailed], shard, t, k, b, s1);
    AnswerIff(more, longer, shard, t, k, b, r, S.Live(s.store, k));
    assert longer == acts + [ClearFailed, ProbeParked(t), ProbeList(t)];
  }

  lemma UnderwayCompact(trace: seq<State>, acts: seq<Action>, shard: Key -> nat, t: Tid, k: Key, b: nat, s: State,
                        c: S.Change, st: S.Store)
    requires Underway(trace, acts, shard, t, k, b, s) && Enabled(s, Compact(c)) && S.Clean(s.store, c)
    requires st == S.After(s.store, c)
    ensures Underway(trace + [s.(store := st)], acts + [Compact(c)], shard, t, k, b, s.(store := st))
  {
    UnderwayNext(trace, acts, shard, t, k, b, s, Compact(c));
  }

  /** A compaction under way is given up, if there is one. */
  lemma UnderwayFree(trace: seq<State>, acts: seq<Action>, shard: Key -> nat, t: Tid, k: Key, b: nat, s: State)
    returns (more: seq<State>, all: seq<Action>)
    requires Underway(trace, acts, shard, t, k, b, s)
    ensures acts <= all && Underway(more, all, shard, t, k, b, s.(store := s.store.(job := S.NoJob)))
  {
    if s.store.job.NoJob? {
      more, all := trace, acts;
    } else {
      UnderwayCompact(trace, acts, shard, t, k, b, s, S.GiveUp, s.store.(job := S.NoJob));
      more, all := trace + [s.(store := s.store.(job := S.NoJob))], acts + [Compact(S.GiveUp)];
    }
  }

  /** A compaction is started and takes its course. */
  lemma UnderwayWhole(trace: seq<State>, acts: seq<Action>, shard: Key -> nat, t: Tid, k: Key, b: nat, s: State,
                      c: S.Change, st: S.Store)
    returns (more: seq<State>, all: seq<Action>)
    requires Underway(trace, acts, shard, t, k, b, s) && s.flush == Idle && (c.StartFull? || c.StartPartial?)
    requires S.Can(s.store, c) && S.Clean(s.store, c) && st == S.After(s.store, c) && st.job.Job?
    ensures acts <= all && Underway(more, all, shard, t, k, b, s.(store := S.Committed(st)))
  {
    UnderwayCompact(trace, acts, shard, t, k, b, s, c, st);
    more, all := trace + [s.(store := st)], acts + [Compact(c)];
    UnderwayCompact(more, all, shard, t, k, b, s.(store := st), S.Commit, S.Committed(st));
    more, all := more + [s.(store := S.Committed(st))], all + [Compact(S.Commit)];
  }

  /** A new compaction lists it. */
  lemma UnderwayNew(trace: seq<State>, acts: seq<Action>, shard: Key -> nat, t: Tid, k: Key, b: nat, s: State, v: Option<Bytes>)
    returns (more: seq<State>, all: seq<Action>, st: S.Store)
    requires Underway(trace, acts, shard, t, k, b, s) && s.flush == Idle && S.Good(s.store) && s.store.job.NoJob?
    requires S.ByRun(s.store, k, v) || S.ByFull(s.store, k, v)
    ensures acts <= all && Underway(more, all, shard, t, k, b, s.(store := st)) && S.Live(st, k) == v
  {
    if S.ByRun(s.store, k, v) {
      S.TieredShows(s.store, 0, 1, k);
      st := s.store.(job := S.RunJob(s.store.open, 0, 1));
      more, all := UnderwayWhole(trace, acts, shard, t, k, b, s, S.StartPartial(0, 1), st);
    } else {
      S.CompactedShows(s.store, k);
      st := S.After(s.store, S.StartFull);
      more, all := UnderwayWhole(trace, acts, shard, t, k, b, s, S.StartFull, st);
    }
    st := S.Committed(st);
  }

  lemma FreeLists(st: S.Store, k: Key, v: Option<Bytes>)
    requires S.Good(st) && (S.ByRun(st, k, v) || S.ByFull(st, k, v))
    ensures var free := st.(job := S.NoJob); S.Good(free) && (S.ByRun(free, k, v) || S.ByFull(free, k, v))
  {
    if st.job.Job? { S.GiveUpKeeps(st); } else { assert st.(job := S.NoJob) == st; }
  }

  /** What is under way is given up first. */
  lemma UnderwayFresh(trace: seq<State>, acts: seq<Action>, shard: Key -> nat, t: Tid, k: Key, b: nat, s: State, v: Option<Bytes>)
    returns (more: seq<State>, all: seq<Action>, st: S.Store)
    requires Underway(trace, acts, shard, t, k, b, s) && s.flush == Idle && S.Good(s.store)
    requires S.ByRun(s.store, k, v) || S.ByFull(s.store, k, v)
    ensures acts <= all && Underway(more, all, shard, t, k, b, s.(store := st)) && S.Live(st, k) == v
  {
    FreeLists(s.store, k, v);
    var more1, all1 := UnderwayFree(trace, acts, shard, t, k, b, s);
    more, all, st := UnderwayNew(more1, all1, shard, t, k, b, s.(store := s.store.(job := S.NoJob)), v);
  }

  /** Whatever can be listed, some run goes on to list. */
  lemma UnderwayListed(trace: seq<State>, acts: seq<Action>, shard: Key -> nat, t: Tid, k: Key, b: nat, s: State, v: Option<Bytes>)
    returns (more: seq<State>, all: seq<Action>, st: S.Store)
    requires Underway(trace, acts, shard, t, k, b, s) && s.flush == Idle && S.Good(s.store) && S.Listable(s.store, k, v)
    ensures acts <= all && Underway(more, all, shard, t, k, b, s.(store := st)) && S.Live(st, k) == v
  {
    if v == S.Live(s.store, k) {
      more, all, st := trace, acts, s.store;
      assert s.(store := st) == s;
    } else if S.ByCommit(s.store, k, v) {
      st := S.Committed(s.store);
      UnderwayCompact(trace, acts, shard, t, k, b, s, S.Commit, st);
      more, all := trace + [s.(store := st)], acts + [Compact(S.Commit)];
    } else {
      more, all, st := UnderwayFresh(trace, acts, shard, t, k, b, s, v);
    }
  }

  lemma ListedReadsWrong(trace: seq<State>, all: seq<Action>, shard: Key -> nat, t: Tid, k: Key, b: nat, s: State, v: Option<Bytes>)
    requires Underway(trace, all, shard, t, k, b, s) && s.readers[t].key == k
    requires s.readers[t].phase == MissedActive && s.parked.None? && s.flush == Idle
    requires S.Good(s.store) && S.Listable(s.store, k, v) && v !in s.readers[t].seen
    ensures ReadsWrong(all, shard, t, k, b, v)
  {
    var more, longer, st := UnderwayListed(trace, all, shard, t, k, b, s, v);
    var r;
    more, longer, r := FallsThrough(more, longer, shard, t, k, b, s.(store := st));
    WrongAnswer(more, longer, all, shard, t, k, b, r, v);
  }

  /** From every reachable state in which a failed flush drops the parked map under a reader: what the
      list can come to show and the reader has not seen, the read can return. */
  lemma UncoveredReadsWrong(trace: seq<State>, acts: seq<Action>, shard: Key -> nat, t: Tid, k: Key, b: nat, v: Option<Bytes>)
    requires TidyRun(trace, acts, shard) && Reading(trace, acts, t, k, b, |acts|)
    requires var s := trace[|acts|];
             Enabled(s, ClearFailed) && Caught(s, t) && S.Listable(s.store, k, v) && v !in s.readers[t].seen
    ensures ReadsWrong(acts + [ClearFailed], shard, t, k, b, v)
  {
    var s := trace[|acts|];
    SeenIsHistory(trace, acts, shard, t, k, b, |acts|);
    RunKeepsBase(trace, acts, shard, |acts|);
    UnderwayNext(trace, acts, shard, t, k, b, s, ClearFailed);
    ListedReadsWrong(trace + [Next(s, ClearFailed)], acts + [ClearFailed], shard, t, k, b, Next(s, ClearFailed), v);
  }

  /** The steps of a run decide its states. */
  lemma {:induction false} SameStates(trace: seq<State>, acts: seq<Action>, more: seq<State>, all: seq<Action>, shard: Key -> nat, i: nat)
    requires IsRun(trace, acts, shard) && IsRun(more, all, shard) && acts <= all && i <= |acts|
    ensures trace[i] == more[i]
  {
    if i > 0 {
      SameStates(trace, acts, more, all, shard, i - 1);
      assert StepAt(trace, acts, i - 1) && StepAt(more, all, i - 1);
    }
  }

  /** If there is no such value, it returns one its key has had, however the run goes on. */
  lemma CoveredReadsRight(trace: seq<State>, acts: seq<Action>, shard: Key -> nat, t: Tid, k: Key, b: nat, v: Option<Bytes>)
    requires TidyRun(trace, acts, shard) && Reading(trace, acts, t, k, b, |acts|)
    requires Caught(trace[|acts|], t) && AllSeen(trace[|acts|].store, trace[|acts|].readers[t])
    ensures !ReadsWrong(acts, shard, t, k, b, v)
  {
    if ReadsWrong(acts, shard, t, k, b, v) {
      var more: seq<State>, all: seq<Action> :|
        && TidyRun(more, all, shard) && acts <= all && Reading(more, all, t, k, b, |all|)
        && more[|all|].readers[t].phase == Resolved(v) && forall i | b < i <= |all| :: View(Memory(more[i]), k) != v;
      SameStates(trace, acts, more, all, shard, |acts|);
      CaughtSawParked(trace, acts, shard, t, k, b, |acts|);
      StaysSecure(more, all, shard, t, k, b, |acts|, |all|);
      AnswerIff(more, all, shard, t, k, b, more[|all|], v);
      assert false;
    }
  }

  lemma WrongLater(acts: seq<Action>, a: Action, shard: Key -> nat, t: Tid, k: Key, b: nat, v: Option<Bytes>)
    requires ReadsWrong(acts + [a], shard, t, k, b, v)
    ensures ReadsWrong(acts, shard, t, k, b, v)
  {
    assert acts <= acts + [a];
  }

  /** Of every reachable state in which a failed flush drops the parked map under a reader: the read
      is right in every run that goes on from there with clean compactions, exactly when the reader
      has seen all that the list shows or compactions can make it show. */
  lemma CaughtRightIff(trace: seq<State>, acts: seq<Action>, shard: Key -> nat, t: Tid, k: Key, b: nat)
    requires TidyRun(trace, acts, shard) && Reading(trace, acts, t, k, b, |acts|)
    requires Enabled(trace[|acts|], ClearFailed) && Caught(trace[|acts|], t)
    ensures AllSeen(trace[|acts|].store, trace[|acts|].readers[t]) <==>
            forall v :: !ReadsWrong(acts + [ClearFailed], shard, t, k, b, v)
  {
    var s := trace[|acts|];
    SeenIsHistory(trace, acts, shard, t, k, b, |acts|);
    if AllSeen(s.store, s.readers[t]) {
      forall v ensures !ReadsWrong(acts + [ClearFailed], shard, t, k, b, v) {
        CoveredReadsRight(trace, acts, shard, t, k, b, v);
        if ReadsWrong(acts + [ClearFailed], shard, t, k, b, v) { WrongLater(acts, ClearFailed, shard, t, k, b, v); }
      }
    } else {
      var v :| S.Listable(s.store, k, v) && v !in s.readers[t].seen;
      UncoveredReadsWrong(trace, acts, shard, t, k, b, v);
    }
  }

  // ----- A stale value in the hot tier

  /** A reader between its two memtable probes whose key is in the map that a failed flush is
      about to drop, with an older value below. */
  ghost predicate Endangered(s: State, t: Tid, k: Key, v: Bytes) {
    && s.flush == Failing && s.parked.Some? && k in s.parked.value && k in s.active
    && t in s.readers && s.readers[t].key == k && s.readers[t].phase == MissedActive
    && s.readers[t].epoch == Epoch(s, k) && s.shard(k) !in s.locks
    && S.Live(s.store, k) == Some(v) && Current(s, k) != Some(v)
  }

  ghost predicate Steps(s: State, acts: seq<Action>, r: State)
    decreases |acts|
  {
    if acts == [] then s == r else Enabled(s, acts[0]) && Steps(Next(s, acts[0]), acts[1..], r)
  }

  /** Some sequence of steps leads from `s` to `r`. */
  ghost predicate Leads(s: State, r: State) {
    exists acts: seq<Action> :: Steps(s, acts, r)
  }

  lemma {:induction false} StepsSnoc(s: State, acts: seq<Action>, r: State, a: Action)
    requires Steps(s, acts, r) && Enabled(r, a)
    ensures Steps(s, acts + [a], Next(r, a))
    decreases |acts|
  {
    if acts == [] {
      assert (acts + [a])[0] == a && (acts + [a])[1..] == [];
      assert Steps(Next(r, a), [], Next(r, a));
    } else {
      StepsSnoc(Next(s, acts[0]), acts[1..], r, a);
      assert (acts + [a])[1..] == acts[1..] + [a];
    }
  }

  lemma LeadsSelf(s: State)
    ensures Leads(s, s)
  {
    assert Steps(s, [], s);
  }

  lemma LeadsNext(s: State, r: State, a: Action)
    requires Leads(s, r) && Enabled(r, a)
    ensures Leads(s, Next(r, a))
  {
    var acts: seq<Action> :| Steps(s, acts, r);
    StepsSnoc(s, acts, r, a);
  }

  /** A promotion whose guard is good. */
  lemma LeadsPromote(s: State, r: State, t: Tid, v: Bytes) returns (q: State)
    requires Leads(s, r) && t in r.readers && r.readers[t].phase == Resolved(Some(v))
    requires r.readers[t].epoch == Epoch(r, r.readers[t].key) && r.shard(r.readers[t].key) !in r.locks
    ensures Leads(s, q) && SameStore(r, q) && q.hot == r.hot[r.readers[t].key := v] && q.readers == r.readers - {t}
  {
    LeadsNext(s, r, Lock(t));
    var r1 := Next(r, Lock(t));
    LeadsNext(s, r1, Store(t));
    q := Next(r1, Store(t));
  }

  /** The dropped map, seen by the reader: it falls through to the SSTs. */
  lemma LeadsMiss(s: State, t: Tid, k: Key, v: Bytes) returns (q: State)
    requires Endangered(s, t, k, v)
    ensures Leads(s, q)
    ensures q == Move(Move(s.(parked := None, flush := Idle), t, MissedParked), t, Resolved(Some(v)))
  {
    LeadsSelf(s);
    LeadsNext(s, s, ClearFailed);
    var s1 := Next(s, ClearFailed);
    LeadsNext(s, s1, ProbeParked(t));
    var s2 := Next(s1, ProbeParked(t));
    LeadsNext(s, s2, ProbeList(t));
    q := Next(s2, ProbeList(t));
  }

  /** From every such state the code can go on to cache the older value for good: the guard is
      still good, so the fill is admitted, and no write is left to remove it. */
  lemma FailedFlushPoisonsHotTier(s: State, t: Tid, k: Key, v: Bytes)
    requires Endangered(s, t, k, v)
    ensures exists r: State ::
              && Leads(s, r) && k in r.hot && r.hot[k] == v
              && Current(r, k) == Current(s, k) != Some(v)
              && r.writers == s.writers && r.flush == Idle
  {
    var q := LeadsMiss(s, t, k, v);
    var r := LeadsPromote(s, q, t, v);
    SameExcused(q, r, k, None);
    assert Current(q, k) == Current(s, k);
  }

  lemma LeadsWrite(i: State, s: State, k: Key, e: Entry) returns (r: State)
    requires Leads(i, s) && s.flush != Parking && s.writers == map[] && s.readers == map[]
    ensures Leads(i, r)
    ensures r == s.(active := s.active[k := e], writers := map[0 := Writer(k, Current(s, k), false)])
  {
    LeadsNext(i, s, Write(0, k, e));
    r := Next(s, Write(0, k, e));
  }

  lemma OneReplaced<T>(t: Tid, v: T, w: T)
    ensures map[t := v][t := w] == map[t := w]
  {
  }

  lemma LeadsBump(i: State, s: State, k: Key, v: Option<Bytes>) returns (r: State)
    requires Leads(i, s) && s.writers == map[0 := Writer(k, v, false)]
    ensures Leads(i, r)
    ensures r == s.(epochs := r.epochs, writers := map[0 := Writer(k, v, true)])
  {
    OneReplaced(0, Writer(k, v, false), Writer(k, v, true));
    LeadsNext(i, s, Bump(0));
    r := Next(s, Bump(0));
  }

  lemma LeadsInvalidate(i: State, s: State, k: Key, v: Option<Bytes>) returns (r: State)
    requires Leads(i, s) && s.writers == map[0 := Writer(k, v, true)] && s.locks == map[]
    ensures Leads(i, r)
    ensures r == s.(hot := s.hot - {k}, writers := map[])
  {
    LeadsNext(i, s, Invalidate(0));
    r := Next(s, Invalidate(0));
  }

  /** Nothing is under way. */
  predicate Quiet(s: State) {
    s.flush == Idle && s.parked.None? && s.writers == map[] && s.readers == map[] && s.locks == map[]
  }

  /** A write that is applied, invalidated and returned. */
  lemma LeadsWholeWrite(i: State, s: State, k: Key, e: Entry) returns (r: State)
    requires Leads(i, s) && Quiet(s)
    ensures Leads(i, r) && Quiet(r)
    ensures r.shard == s.shard && r.active == s.active[k := e] && r.store == s.store
  {
    var s1 := LeadsWrite(i, s, k, e);
    var s2 := LeadsBump(i, s1, k, Current(s, k));
    r := LeadsInvalidate(i, s2, k, Current(s, k));
  }

  lemma LeadsParked(i: State, s: State) returns (r: State)
    requires Leads(i, s) && s.flush == Idle && s.active != map[]
    ensures Leads(i, r)
    ensures r == s.(parked := Some(s.active), active := map[], flush := Writing)
  {
    LeadsNext(i, s, Park);
    var s1 := Next(s, Park);
    LeadsNext(i, s1, Swap);
    r := Next(s1, Swap);
  }

  /** A flush that succeeds. */
  lemma LeadsFlushed(i: State, s: State) returns (r: State)
    requires Leads(i, s) && Quiet(s) && s.active != map[]
    ensures Leads(i, r) && Quiet(r)
    ensures r.shard == s.shard && r.active == map[] && r.store == S.After(s.store, S.Flush(s.active))
  {
    var s1 := LeadsParked(i, s);
    LeadsNext(i, s1, Publish);
    var s2 := Next(s1, Publish);
    LeadsNext(i, s2, Clear);
    r := Next(s2, Clear);
  }

  lemma LeadsBegun(i: State, s: State, k: Key) returns (r: State)
    requires Leads(i, s) && s.readers == map[]
    ensures Leads(i, r)
    ensures r == s.(readers := map[1 := Reader(k, Epoch(s, k), {Current(s, k)}, Probing)])
  {
    LeadsNext(i, s, Begin(1, k));
    r := Next(s, Begin(1, k));
  }

  lemma LeadsMissedActive(i: State, s: State, rd: Reader) returns (r: State)
    requires Leads(i, s) && s.readers == map[1 := rd] && rd.phase == Probing && rd.key !in s.active
    ensures Leads(i, r)
    ensures r == s.(readers := map[1 := rd.(phase := MissedActive)])
  {
    OneReplaced(1, rd, rd.(phase := MissedActive));
    LeadsNext(i, s, ProbeActive(1));
    r := Next(s, ProbeActive(1));
  }

  /** A flush that fails while a read of `k` has passed the emptied active map. */
  lemma LeadsFailing(i: State, s: State, k: Key, v: Bytes) returns (r: State)
    requires Leads(i, s) && Quiet(s) && k in s.active && S.Live(s.store, k) == Some(v)
    requires Visible(Some(s.active[k])) != Some(v)
    ensures Leads(i, r) && Endangered(r, 1, k, v) && r.writers == map[]
  {
    var s1 := LeadsParked(i, s);
    var s2 := LeadsBegun(i, s1, k);
    var s3 := LeadsMissedActive(i, s2, s2.readers[1]);
    LeadsNext(i, s3, Reabsorb(false));
    r := Next(s3, Reabsorb(false));
  }

  lemma FirstFlush(l: Layer, k: Key)
    requires k in l
    ensures S.Live(S.After(S.Opening([], 0), S.Flush(l)), k) == Visible(Some(l[k]))
  {
    var st := S.Opening([], 0);
    S.OpeningGood([], 0);
    LiveShown(S.After(st, S.Flush(l)), k);
    S.StepShows(st, S.Flush(l), k, S.Live(S.After(st, S.Flush(l)), k));
  }

  /** Such states occur: `k` is written and flushed, written again, and the second flush
      fails. */
  lemma EndangeredReachable(shard: Key -> nat, k: Key, v: Bytes, w: Bytes)
    requires v != w
    ensures exists s: State :: Leads(Init(shard), s) && Endangered(s, 1, k, v) && s.writers == map[]
  {
    var i := Init(shard);
    LeadsSelf(i);
    var s1 := LeadsWholeWrite(i, i, k, Data(v));
    assert k in s1.active;
    var s2 := LeadsFlushed(i, s1);
    var s3 := LeadsWholeWrite(i, s2, k, Data(w));
    FirstFlush(s1.active, k);
    var s := LeadsFailing(i, s3, k, v);
  }

  // ----- A hit that goes back

  /** Thread `t` is about to probe for `k`, of which the hot tier has `v`; `u` is free to write. */
  predicate Poised(s: State, t: Tid, u: Tid, k: Key, v: Bytes) {
    && k in s.hot && s.hot[k] == v && t in s.readers && s.readers[t].key == k && s.readers[t].phase == Probing
    && u !in s.writers && s.flush != Parking
  }

  lemma LeadsNewer(s: State, t: Tid, u: Tid, k: Key, v: Bytes, w: Bytes) returns (q: State)
    requires Poised(s, t, u, k, v)
    ensures Leads(s, q) && t in q.readers && q.readers[t].phase == Resolved(Some(w))
    ensures q.hot == s.hot && u in q.writers
  {
    LeadsSelf(s);
    LeadsNext(s, s, Write(u, k, Data(w)));
    var s1 := Next(s, Write(u, k, Data(w)));
    LeadsNext(s, s1, ProbeActive(t));
    q := Next(s1, ProbeActive(t));
  }

  lemma LeadsFinished(s: State, t: Tid) returns (r: State)
    requires t in s.readers && s.readers[t].phase.Resolved?
    ensures Leads(s, r) && r == s.(readers := s.readers - {t})
  {
    LeadsSelf(s);
    LeadsNext(s, s, Finish(t));
    r := Next(s, Finish(t));
  }

  /** From every such state: `u` writes `w`, the read by `t` returns `w`, and a later read, which the
      hot tier answers, returns `v` again; the write has not returned by then. */
  lemma HitGoesBack(s: State, t: Tid, u: Tid, k: Key, v: Bytes, w: Bytes) returns (q: State, r: State)
    requires Poised(s, t, u, k, v)
    ensures Leads(s, q) && t in q.readers && q.readers[t].phase == Resolved(Some(w))
    ensures Leads(q, r) && t !in r.readers && Enabled(r, Hit(k)) && r.hot[k] == v && u in r.writers
  {
    q := LeadsNewer(s, t, u, k, v, w);
    r := LeadsFinished(q, t);
  }

  /** The first of two reads stores what it has found. */
  lemma LeadsStored(i: State, s: State, k: Key, v: Bytes) returns (r: State)
    requires Leads(i, s) && Quiet(s) && k in s.active && s.active[k] == Data(v)
    ensures Leads(i, r) && Poised(r, 2, 0, k, v)
  {
    var s1 := LeadsBegun(i, s, k);
    LeadsNext(i, s1, Begin(2, k));
    var s2 := Next(s1, Begin(2, k));
    LeadsNext(i, s2, ProbeActive(1));
    var s3 := Next(s2, ProbeActive(1));
    r := LeadsPromote(i, s3, 1, v);
  }

  /** Such states occur: `k` is written, and of two reads that miss the hot tier one is ahead. */
  lemma PoisedReachable(shard: Key -> nat, k: Key, v: Bytes)
    ensures exists s: State :: Leads(Init(shard), s) && Poised(s, 2, 0, k, v)
  {
    var i := Init(shard);
    LeadsSelf(i);
    var s1 := LeadsWholeWrite(i, i, k, Data(v));
    var s := LeadsStored(i, s1, k, v);
  }
}
