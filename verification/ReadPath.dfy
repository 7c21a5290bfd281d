/** Reads, writes, flushes and compactions of the storage engine, interleaved step by step
    (src/storage/engine.rs, memtable.rs, tiered.rs).

    Every atomic step of a writer, of the flush, of a compaction and of a reader is an
    action; any interleaving of any number of them is a run.  Proved over all runs: what a
    read that goes through the layers may return, and what the hot tier may hold.

    The SST files, their readers and the compactions are those of `Ssts`. */
module ReadPath {
  import opened Basics
  import opened Lsm
  import S = Ssts

  type Tid = nat

  /** Where a memtable flush stands.  Parking: the map is parked but not yet replaced, under
      the write lock.  Writing: the SST is being written.  Published: it is in the reader
      list.  Failing: the parked entries are folded back into the active map.  The flush lock is
      held from Parking on. */
  datatype Flush = Idle | Parking | Writing | Published | Failing

  /** A write that has reached the memtable; `prior` is the value it replaced, `bumped` whether
      it has raised the invalidation epoch. */
  datatype Writer = Writer(key: Key, prior: Option<Bytes>, bumped: bool)

  /** How far a read that missed the hot tier has come.  Locked: it holds the shard's lock and
      has found its epoch unchanged. */
  datatype Phase = Probing | MissedActive | MissedParked | Resolved(v: Option<Bytes>) | Locked(w: Bytes)

  /** `epoch` is the fill guard.  `seen` collects the values the key has had since the guard
      was taken; no step depends on it. */
  datatype Reader = Reader(key: Key, epoch: nat, seen: set<Option<Bytes>>, phase: Phase)

  datatype State = State(
    shard: Key -> nat,
    active: Layer,
    parked: Option<Layer>,
    store: S.Store,
    flush: Flush,
    hot: map<Key, Bytes>,
    epochs: map<nat, nat>,
    locks: map<nat, Tid>,
    writers: map<Tid, Writer>,
    readers: map<Tid, Reader>)

  function Init(shard: Key -> nat): (s: State) {
    State(shard, map[], None, S.Opening([], 0), Idle, map[], map[], map[], map[], map[])
  }

  function Epoch(s: State, k: Key): (n: nat) {
    if s.shard(k) in s.epochs then s.epochs[s.shard(k)] else 0
  }

  /** The layers of the reader list. */
  function List(s: State): (ls: seq<Layer>) {
    Layers(s.store.open)
  }

  predicate InParked(s: State, k: Key) {
    s.parked.Some? && k in s.parked.value
  }

  /** The entry below the active map. */
  function Lower(s: State, k: Key): (e: Option<Entry>) {
    if InParked(s, k) then Some(s.parked.value[k]) else Find(List(s), 0, k)
  }

  /** The value of `k`: what the layers hold, newest first. */
  function Current(s: State, k: Key): (v: Option<Bytes>) {
    Visible(if k in s.active then Some(s.active[k]) else Lower(s, k))
  }

  function Memory(s: State): (ls: seq<Layer>) {
    [s.active] + (if s.parked.Some? then [s.parked.value] else []) + List(s)
  }

  /** `Current` is a read of the layers in memory. */
  lemma CurrentIsView(s: State, k: Key)
    ensures Current(s, k) == View(Memory(s), k)
  {
    var mid := if s.parked.Some? then [s.parked.value] else [];
    assert Memory(s) == [s.active] + (mid + List(s));
    FindAppend([s.active], mid + List(s), k);
    FindOne(s.active, k);
    FindAppend(mid, List(s), k);
    if s.parked.Some? { FindOne(s.parked.value, k); }
  }

  // ----- Steps

  datatype Action =
    | Write(t: Tid, k: Key, e: Entry)   // memtable insert, in WAL order
    | Bump(t: Tid)                      // invalidate: raise the epoch
    | Invalidate(t: Tid)                // invalidate: remove under the shard lock; the write returns
    | Park | Swap | Publish | Clear     // a flush that succeeds
    | Reabsorb(landed: bool)            // a flush that fails after Park and Swap, its SST written or not
    | ClearFailed
    | Compact(c: S.Change)              // a step of a compaction
    | Hit(k: Key)                       // a read that the hot tier answers
    | Begin(t: Tid, k: Key)             // hot-tier miss, then begin_fill
    | ProbeActive(t: Tid) | ProbeParked(t: Tid) | ProbeList(t: Tid)
    | Lock(t: Tid) | Store(t: Tid)      // promote: check the epoch under the lock, then store
    | Finish(t: Tid)                    // return without promoting
    | Evict(k: Key)

  predicate At(s: State, t: Tid, p: Phase) {
    t in s.readers && s.readers[t].phase == p
  }

  /** A full compaction takes its number under the flush lock; every commit holds it. */
  predicate CanCompact(s: State, c: S.Change) {
    match c
    case StartFull => s.flush == Idle
    case StartPartial(_, _) => true
    case GiveUp => true
    case Commit => s.flush == Idle
    case Abort(_) => s.flush == Idle
    case _ => false
  }

  predicate Enabled(s: State, a: Action) {
    match a
    case Write(t, k, e) => t !in s.writers && s.flush != Parking
    case Bump(t) => t in s.writers && !s.writers[t].bumped
    case Invalidate(t) => t in s.writers && s.writers[t].bumped && s.shard(s.writers[t].key) !in s.locks
    case Park => s.flush == Idle && s.active != map[]
    case Swap => s.flush == Parking
    case Publish => s.flush == Writing && s.parked.Some?
    case Clear => s.flush == Published
    case Reabsorb(_) => s.flush == Writing && s.parked.Some?
    case ClearFailed => s.flush == Failing
    case Compact(c) => S.Can(s.store, c) && CanCompact(s, c)
    case Hit(k) => k in s.hot
    case Begin(t, k) => t !in s.readers
    case ProbeActive(t) => At(s, t, Probing)
    case ProbeParked(t) => At(s, t, MissedActive)
    case ProbeList(t) => At(s, t, MissedParked)
    case Lock(t) => t in s.readers && s.readers[t].phase.Resolved? && s.readers[t].phase.v.Some?
                    && s.shard(s.readers[t].key) !in s.locks && s.readers[t].epoch == Epoch(s, s.readers[t].key)
    case Store(t) => t in s.readers && s.readers[t].phase.Locked?
    case Finish(t) => t in s.readers && s.readers[t].phase.Resolved?
    case Evict(k) => true
  }

  function See(readers: map<Tid, Reader>, k: Key, v: Option<Bytes>): (r: map<Tid, Reader>)
    ensures r.Keys == readers.Keys
    ensures forall t | t in readers ::
              r[t] == if readers[t].key == k then readers[t].(seen := readers[t].seen + {v}) else readers[t]
  {
    map t | t in readers :: if readers[t].key == k then readers[t].(seen := readers[t].seen + {v}) else readers[t]
  }

  function Move(s: State, t: Tid, p: Phase): (r: State)
    requires t in s.readers
  {
    s.(readers := s.readers[t := s.readers[t].(phase := p)])
  }

  function Next(s: State, a: Action): (r: State)
    requires Enabled(s, a)
  {
    match a
    case Write(t, k, e) =>
      s.(active := s.active[k := e],
         writers := s.writers[t := Writer(k, Current(s, k), false)],
         readers := See(s.readers, k, Visible(Some(e))))
    case Bump(t) =>
      var w := s.writers[t];
      s.(epochs := s.epochs[s.shard(w.key) := Epoch(s, w.key) + 1], writers := s.writers[t := w.(bumped := true)])
    case Invalidate(t) => s.(hot := s.hot - {s.writers[t].key}, writers := s.writers - {t})
    case Park => s.(parked := Some(s.active), flush := Parking)
    case Swap => s.(active := map[], flush := Writing)
    case Publish => s.(store := S.After(s.store, S.Flush(s.parked.value)), flush := Published)
    case Clear => s.(parked := None, flush := Idle)
    case Reabsorb(landed) =>
      s.(store := S.After(s.store, if landed then S.Land(s.parked.value) else S.Waste),
         active := s.parked.value + s.active, flush := Failing)
    case ClearFailed => s.(parked := None, flush := Idle)
    case Compact(c) => s.(store := S.After(s.store, c))
    case Hit(_) => s
    case Begin(t, k) => s.(readers := s.readers[t := Reader(k, Epoch(s, k), {Current(s, k)}, Probing)])
    case ProbeActive(t) =>
      var k := s.readers[t].key;
      Move(s, t, if k in s.active then Resolved(Visible(Some(s.active[k]))) else MissedActive)
    case ProbeParked(t) =>
      var k := s.readers[t].key;
      Move(s, t, if s.parked.Some? && k in s.parked.value then Resolved(Visible(Some(s.parked.value[k])))
                 else MissedParked)
    case ProbeList(t) => Move(s, t, Resolved(S.Live(s.store, s.readers[t].key)))
    case Lock(t) =>
      Move(s, t, Locked(s.readers[t].phase.v.value)).(locks := s.locks[s.shard(s.readers[t].key) := t])
    case Store(t) =>
      var r := s.readers[t];
      s.(hot := s.hot[r.key := r.phase.w], locks := s.locks - {s.shard(r.key)}, readers := s.readers - {t})
    case Finish(t) => s.(readers := s.readers - {t})
    case Evict(k) => s.(hot := s.hot - {k})
  }

  // ----- The invariant

  /** What the SSTs show or may come to show of `k`, other than what the list shows now, is hidden
      by the memtable. */
  ghost predicate StoreOk(s: State) {
    && S.Good(s.store)
    && (forall k: Key, v | S.Shows(s.store, k, v) :: v == S.Live(s.store, k) || k in s.active || InParked(s, k))
  }

  /** Once published, the parked map is what the SSTs show. */
  ghost predicate PublishedOk(s: State) {
    s.flush == Published && s.parked.Some? ==>
      forall k: Key, v | k in s.parked.value && S.Shows(s.store, k, v) :: v == Visible(Some(s.parked.value[k]))
  }

  /** While an SST is being written, the list is up to date for the keys that are not in it. */
  ghost predicate WritingOk(s: State) {
    s.flush == Writing && s.parked.Some? ==>
      forall k: Key, v | k !in s.parked.value && S.Shows(s.store, k, v) :: v == S.Live(s.store, k)
  }

  predicate FlushOk(s: State) {
    && (s.flush == Idle <==> s.parked.None?)
    && (s.flush == Parking ==> s.parked == Some(s.active))
    && (s.flush == Failing ==> forall k | k in s.parked.value :: k in s.active)
  }

  predicate LocksOk(s: State) {
    && (forall n | n in s.locks ::
          && s.locks[n] in s.readers && s.readers[s.locks[n]].phase.Locked?
          && s.shard(s.readers[s.locks[n]].key) == n)
    && (forall t | t in s.readers && s.readers[t].phase.Locked? ::
          s.shard(s.readers[t].key) in s.locks && s.locks[s.shard(s.readers[t].key)] == t)
  }

  /** The layers are as they should be; this does not speak of readers. */
  ghost predicate Base(s: State) {
    StoreOk(s) && WritingOk(s) && PublishedOk(s) && FlushOk(s)
  }

  /** The value is the current one, or one that a write still under way has replaced. */
  predicate Excused(s: State, k: Key, v: Option<Bytes>) {
    v == Current(s, k) || exists t :: t in s.writers && s.writers[t].key == k && s.writers[t].prior == v
  }

  /** The same, counting only writes that have not raised the epoch yet. */
  predicate Fresh(s: State, k: Key, v: Option<Bytes>) {
    v == Current(s, k) ||
    exists t :: t in s.writers && s.writers[t].key == k && s.writers[t].prior == v && !s.writers[t].bumped
  }

  /** All that the list shows of the key, or can come to show without a flush, has been seen. */
  ghost predicate AllSeen(st: S.Store, r: Reader) {
    forall v | S.Listable(st, r.key, v) :: v in r.seen
  }

  /** What is still to be probed can only give values the key has had during the read. */
  ghost predicate SeenOk(s: State, r: Reader) {
    && Current(s, r.key) in r.seen
    && (r.phase == MissedActive || r.phase == MissedParked ==> Visible(Lower(s, r.key)) in r.seen)
    && (r.phase == MissedActive && !InParked(s, r.key) ==> AllSeen(s.store, r))
    && (r.phase == MissedParked ==> AllSeen(s.store, r))
    && (r.phase.Resolved? ==> r.phase.v in r.seen)
    && (r.phase.Locked? ==> Excused(s, r.key, Some(r.phase.w)))
  }

  /** A guard that is still good covers only values that are not stale yet. */
  predicate GuardOk(s: State, r: Reader) {
    && r.epoch <= Epoch(s, r.key)
    && (r.epoch == Epoch(s, r.key) ==> forall v | v in r.seen :: Fresh(s, r.key, v))
  }

  ghost predicate ReaderOk(s: State, r: Reader) {
    SeenOk(s, r) && GuardOk(s, r)
  }

  predicate HotOk(s: State) {
    forall k | k in s.hot :: Excused(s, k, Some(s.hot[k]))
  }

  ghost predicate Inv(s: State) {
    && Base(s) && LocksOk(s) && HotOk(s)
    && (forall t | t in s.readers :: ReaderOk(s, s.readers[t]))
  }

  /** A reader between its two memtable probes whose key is in the parked map. */
  predicate Caught(s: State, t: Tid) {
    t in s.readers && s.readers[t].phase == MissedActive && InParked(s, s.readers[t].key)
  }

  /** Every such reader has seen all it can come to fall through to. */
  ghost predicate Covered(s: State) {
    forall t | t in s.readers && Caught(s, t) :: AllSeen(s.store, s.readers[t])
  }

  /** The steps that can break the invariant: dropping the parked map of a failed flush under a
      reader that still has to find its key there, and the compactions of `Ssts.Clean`. */
  ghost predicate Clean(s: State, a: Action)
    requires Enabled(s, a)
  {
    && (a.ClearFailed? ==> Covered(s))
    && (a.Compact? ==> S.Clean(s.store, a.c))
  }

  // ----- Steps that move layers about, not values

  /** Nothing but the layers changes, and every key keeps its value. */
  ghost predicate SameValues(s: State, r: State) {
    && r == s.(active := r.active, parked := r.parked, store := r.store, flush := r.flush)
    && (forall k: Key :: Current(r, k) == Current(s, k))
  }

  /** A value the list may come to show after the step: one from before, or that of the parked map. */
  ghost predicate WasListable(s: State, k: Key, v: Option<Bytes>) {
    S.Listable(s.store, k, v) || (InParked(s, k) && v == Visible(Lower(s, k)))
  }

  /** What a reader past the active map, or past the parked one, will find has been seen. */
  ghost predicate BelowOk(s: State, r: State, k: Key) {
    && (|| Visible(Lower(r, k)) == Visible(Lower(s, k)) || Visible(Lower(r, k)) == Current(s, k)
        || (!InParked(s, k) && S.Listable(s.store, k, Visible(Lower(r, k)))))
    && (forall v | S.Listable(r.store, k, v) :: WasListable(s, k, v))
    && (InParked(s, k) && !InParked(r, k) ==> forall v | S.Listable(r.store, k, v) :: v == Visible(Lower(s, k)))
  }

  lemma ExcusedSame(s: State, r: State, k: Key, v: Option<Bytes>)
    requires SameValues(s, r)
    ensures Excused(s, k, v) ==> Excused(r, k, v)
    ensures Fresh(s, k, v) ==> Fresh(r, k, v)
  {
  }

  lemma SameGuard(s: State, r: State, rd: Reader)
    requires SameValues(s, r) && GuardOk(s, rd)
    ensures GuardOk(r, rd)
  {
    forall v | v in rd.seen && rd.epoch == Epoch(r, rd.key) ensures Fresh(r, rd.key, v) {
      ExcusedSame(s, r, rd.key, v);
    }
  }

  lemma SameSeen(s: State, r: State, rd: Reader)
    requires SameValues(s, r) && SeenOk(s, rd) && BelowOk(s, r, rd.key)
    ensures SeenOk(r, rd)
  {
    if rd.phase.Locked? { ExcusedSame(s, r, rd.key, Some(rd.phase.w)); }
    if rd.phase == MissedParked || (rd.phase == MissedActive && !InParked(r, rd.key)) {
      forall v | S.Listable(r.store, rd.key, v) ensures v in rd.seen {
        assert WasListable(s, rd.key, v);
      }
    }
  }

  lemma SameHot(s: State, r: State)
    requires SameValues(s, r) && HotOk(s)
    ensures HotOk(r)
  {
    forall k | k in r.hot ensures Excused(r, k, Some(r.hot[k])) {
      ExcusedSame(s, r, k, Some(r.hot[k]));
    }
  }

  lemma LayerStep(s: State, r: State)
    requires Inv(s) && SameValues(s, r) && Base(r) && forall k: Key :: BelowOk(s, r, k)
    ensures Inv(r)
  {
    SameHot(s, r);
    forall t | t in r.readers ensures ReaderOk(r, r.readers[t]) {
      assert ReaderOk(s, s.readers[t]) && BelowOk(s, r, r.readers[t].key);
      SameSeen(s, r, r.readers[t]);
      SameGuard(s, r, r.readers[t]);
    }
  }

  lemma LiveShown(st: S.Store, k: Key)
    ensures S.Shows(st, k, S.Live(st, k))
  {
  }

  /** A step that leaves the SSTs alone. */
  lemma MapBase(s: State, a: Action)
    requires Base(s) && Enabled(s, a) && (a.Park? || a.Swap? || a.Clear? || a.ClearFailed?)
    ensures Base(Next(s, a))
  {
    var r := Next(s, a);
    forall k: Key, v | S.Shows(r.store, k, v) ensures v == S.Live(r.store, k) || k in r.active || InParked(r, k) {
      LiveShown(s.store, k);
    }
  }

  lemma LiveListable(st: S.Store, k: Key)
    ensures S.Listable(st, k, S.Live(st, k))
  {
  }

  lemma MapValues(s: State, a: Action, k: Key)
    requires Base(s) && Enabled(s, a) && (a.Park? || a.Swap? || a.Clear? || a.ClearFailed?)
    ensures var r := Next(s, a); Current(r, k) == Current(s, k) && (a.ClearFailed? || BelowOk(s, r, k))
  {
    LiveShown(s.store, k);
    if a.Clear? {
      forall v | S.Listable(s.store, k, v) ensures S.Shows(s.store, k, v) { S.ListableShown(s.store, k, v); }
    }
  }

  lemma MapStep(s: State, a: Action)
    requires Base(s) && Enabled(s, a) && (a.Park? || a.Swap? || a.Clear? || a.ClearFailed?)
    ensures var r := Next(s, a); Base(r) && SameValues(s, r) && (a.ClearFailed? || forall k: Key :: BelowOk(s, r, k))
  {
    var r := Next(s, a);
    MapBase(s, a);
    forall k: Key ensures Current(r, k) == Current(s, k) && (a.ClearFailed? || BelowOk(s, r, k)) {
      MapValues(s, a, k);
    }
  }

  /** A flush is published. */
  lemma PublishShows(s: State, k: Key, v: Option<Bytes>)
    requires Base(s) && Enabled(s, Publish) && S.Shows(Next(s, Publish).store, k, v)
    ensures v == if InParked(s, k) then Visible(Lower(s, k)) else S.Live(s.store, k)
  {
    S.StepShows(s.store, S.Flush(s.parked.value), k, v);
  }

  lemma PublishValues(s: State, k: Key)
    requires Base(s) && Enabled(s, Publish)
    ensures var r := Next(s, Publish); Current(r, k) == Current(s, k) && BelowOk(s, r, k)
  {
    var r := Next(s, Publish);
    S.StepKeepsGood(s.store, S.Flush(s.parked.value));
    LiveShown(r.store, k);
    PublishShows(s, k, S.Live(r.store, k));
    LiveListable(s.store, k);
    forall v | S.Listable(r.store, k, v) ensures WasListable(s, k, v) {
      S.ListableShown(r.store, k, v);
      PublishShows(s, k, v);
    }
  }

  lemma PublishStep(s: State)
    requires Base(s) && Enabled(s, Publish)
    ensures var r := Next(s, Publish); Base(r) && SameValues(s, r) && forall k: Key :: BelowOk(s, r, k)
  {
    var r := Next(s, Publish);
    S.StepKeepsGood(s.store, S.Flush(s.parked.value));
    forall k: Key ensures Current(r, k) == Current(s, k) && BelowOk(s, r, k) { PublishValues(s, k); }
    forall k: Key, v | S.Shows(r.store, k, v) ensures v == S.Live(r.store, k) || k in r.active || InParked(r, k) {
      PublishShows(s, k, v);
      LiveShown(r.store, k);
      PublishShows(s, k, S.Live(r.store, k));
    }
    forall k: Key, v | k in r.parked.value && S.Shows(r.store, k, v) ensures v == Visible(Some(r.parked.value[k])) {
      PublishShows(s, k, v);
    }
  }

  /** A flush fails, and its entries are folded back. */
  lemma ReabsorbShows(s: State, landed: bool, k: Key, v: Option<Bytes>)
    requires Base(s) && Enabled(s, Reabsorb(landed)) && S.Shows(Next(s, Reabsorb(landed)).store, k, v)
    ensures v == S.Live(s.store, k) || InParked(s, k)
  {
    S.StepShows(s.store, if landed then S.Land(s.parked.value) else S.Waste, k, v);
  }

  lemma ReabsorbLists(s: State, landed: bool, k: Key, v: Option<Bytes>)
    requires Base(s) && Enabled(s, Reabsorb(landed)) && S.Listable(Next(s, Reabsorb(landed)).store, k, v)
    ensures WasListable(s, k, v)
  {
    var c := if landed then S.Land(s.parked.value) else S.Waste;
    S.StepLists(s.store, c, k, v);
    if !InParked(s, k) {
      S.StepKeepsGood(s.store, c);
      S.ListableShown(S.After(s.store, c), k, v);
      ReabsorbShows(s, landed, k, v);
    }
    LiveListable(s.store, k);
  }

  lemma ReabsorbStep(s: State, landed: bool)
    requires Base(s) && Enabled(s, Reabsorb(landed))
    ensures var r := Next(s, Reabsorb(landed)); Base(r) && SameValues(s, r) && forall k: Key :: BelowOk(s, r, k)
  {
    var r := Next(s, Reabsorb(landed));
    S.StepKeepsGood(s.store, if landed then S.Land(s.parked.value) else S.Waste);
    forall k: Key, v | S.Shows(r.store, k, v) ensures v == S.Live(r.store, k) || InParked(s, k) { ReabsorbShows(s, landed, k, v); }
    forall k: Key, v | S.Listable(r.store, k, v) ensures WasListable(s, k, v) { ReabsorbLists(s, landed, k, v); }
    assert r.store.open == s.store.open;
  }

  /** A step of a compaction. */
  lemma CompactShows(s: State, c: S.Change, k: Key, v: Option<Bytes>)
    requires Base(s) && Enabled(s, Compact(c)) && S.Clean(s.store, c) && S.Shows(S.After(s.store, c), k, v)
    ensures S.Shows(s.store, k, v)
  {
    S.StepShows(s.store, c, k, v);
  }

  /** The list changes only when nothing is parked. */
  lemma CompactList(s: State, c: S.Change)
    requires FlushOk(s) && Enabled(s, Compact(c))
    ensures s.parked.None? || S.After(s.store, c).open == s.store.open
  {
  }

  lemma CompactValues(s: State, c: S.Change, k: Key)
    requires Base(s) && Enabled(s, Compact(c)) && S.Clean(s.store, c)
    ensures var r := Next(s, Compact(c)); Current(r, k) == Current(s, k) && BelowOk(s, r, k)
  {
    var r := Next(s, Compact(c));
    LiveShown(r.store, k);
    CompactShows(s, c, k, S.Live(r.store, k));
    forall v | S.Listable(r.store, k, v) ensures S.Listable(s.store, k, v) { S.StepLists(s.store, c, k, v); }
    CompactList(s, c);
    LiveListable(r.store, k);
  }

  lemma CompactBase(s: State, c: S.Change)
    requires Base(s) && Enabled(s, Compact(c)) && S.Clean(s.store, c)
    requires forall k: Key, v | S.Shows(S.After(s.store, c), k, v) :: S.Shows(s.store, k, v)
    ensures StoreOk(Next(s, Compact(c)))
  {
    var r := Next(s, Compact(c));
    S.StepKeepsGood(s.store, c);
    forall k: Key, v | S.Shows(r.store, k, v) ensures v == S.Live(r.store, k) || k in r.active || InParked(r, k) {
      LiveShown(r.store, k);
    }
  }

  lemma CompactFlushing(s: State, c: S.Change)
    requires Base(s) && Enabled(s, Compact(c))
    requires forall k: Key, v | S.Shows(S.After(s.store, c), k, v) :: S.Shows(s.store, k, v)
    ensures var r := Next(s, Compact(c)); WritingOk(r) && PublishedOk(r) && FlushOk(r)
  {
    CompactList(s, c);
  }

  lemma CompactStep(s: State, c: S.Change)
    requires Base(s) && Enabled(s, Compact(c)) && S.Clean(s.store, c)
    ensures var r := Next(s, Compact(c)); Base(r) && SameValues(s, r) && forall k: Key :: BelowOk(s, r, k)
  {
    var r := Next(s, Compact(c));
    forall k: Key, v | S.Shows(r.store, k, v) ensures S.Shows(s.store, k, v) { CompactShows(s, c, k, v); }
    CompactBase(s, c);
    CompactFlushing(s, c);
    forall k: Key ensures Current(r, k) == Current(s, k) && BelowOk(s, r, k) { CompactValues(s, c, k); }
  }

  lemma FlushSteps(s: State, a: Action)
    requires Inv(s) && Enabled(s, a) && (a.Park? || a.Swap? || a.Publish? || a.Clear? || a.Reabsorb?)
    ensures Inv(Next(s, a))
  {
    if a.Publish? {
      PublishStep(s);
    } else if a.Reabsorb? {
      ReabsorbStep(s, a.landed);
    } else {
      MapStep(s, a);
    }
    LayerStep(s, Next(s, a));
  }

  lemma CoveredClear(s: State)
    requires Inv(s) && Enabled(s, ClearFailed) && Covered(s)
    ensures Inv(Next(s, ClearFailed))
  {
    var r := Next(s, ClearFailed);
    MapStep(s, ClearFailed);
    SameHot(s, r);
    forall t | t in r.readers ensures ReaderOk(r, r.readers[t]) {
      var rd := s.readers[t];
      assert ReaderOk(s, rd);
      SameGuard(s, r, rd);
      if rd.phase.Locked? { ExcusedSame(s, r, rd.key, Some(rd.phase.w)); }
      if rd.phase == MissedActive || rd.phase == MissedParked {
        assert Caught(s, t) || AllSeen(s.store, rd);
        LiveListable(s.store, rd.key);
      }
    }
  }

  lemma ClearedIsCovered(s: State)
    requires Inv(s) && Enabled(s, ClearFailed) && Inv(Next(s, ClearFailed))
    ensures Covered(s)
  {
    var r := Next(s, ClearFailed);
    forall t | t in s.readers && Caught(s, t) ensures AllSeen(s.store, s.readers[t]) {
      assert ReaderOk(r, r.readers[t]);
    }
  }

  /** Dropping the parked map of a failed flush keeps the invariant exactly when every reader it can
      fail is covered. */
  lemma ClearFailedStep(s: State)
    requires Inv(s) && Enabled(s, ClearFailed)
    ensures Inv(Next(s, ClearFailed)) <==> Covered(s)
  {
    if Covered(s) { CoveredClear(s); }
    if Inv(Next(s, ClearFailed)) { ClearedIsCovered(s); }
  }

  // ----- Writers

  lemma WriteExcuses(s: State, t: Tid, k: Key, e: Entry, j: Key, v: Option<Bytes>)
    requires Enabled(s, Write(t, k, e))
    ensures var r := Next(s, Write(t, k, e));
            && (Excused(s, j, v) ==> Excused(r, j, v))
            && (Fresh(s, j, v) ==> Fresh(r, j, v))
            && Current(r, k) == Visible(Some(e))
            && (j != k ==> Current(r, j) == Current(s, j))
  {
    var r := Next(s, Write(t, k, e));
    if j == k && v == Current(s, k) {
      assert r.writers[t].key == k && r.writers[t].prior == v && !r.writers[t].bumped;
    } else if Excused(s, j, v) && v != Current(s, j) {
      var u :| u in s.writers && s.writers[u].key == j && s.writers[u].prior == v;
      assert u in r.writers && r.writers[u] == s.writers[u];
      if Fresh(s, j, v) {
        var x :| x in s.writers && s.writers[x].key == j && s.writers[x].prior == v && !s.writers[x].bumped;
        assert x in r.writers && r.writers[x] == s.writers[x];
      }
    }
  }

  lemma WrittenReaderOk(s: State, t: Tid, k: Key, e: Entry, u: Tid)
    requires Enabled(s, Write(t, k, e)) && u in s.readers && ReaderOk(s, s.readers[u])
    ensures ReaderOk(Next(s, Write(t, k, e)), Next(s, Write(t, k, e)).readers[u])
  {
    var r := Next(s, Write(t, k, e));
    var prior, rd := s.readers[u], r.readers[u];
    WriteExcuses(s, t, k, e, rd.key, Current(s, rd.key));
    if rd.phase.Locked? { WriteExcuses(s, t, k, e, rd.key, Some(rd.phase.w)); }
    forall v | v in rd.seen && rd.epoch == Epoch(r, rd.key) ensures Fresh(r, rd.key, v) {
      if v in prior.seen { WriteExcuses(s, t, k, e, rd.key, v); }
    }
  }

  lemma WriteLocks(s: State, t: Tid, k: Key, e: Entry)
    requires LocksOk(s) && Enabled(s, Write(t, k, e))
    ensures LocksOk(Next(s, Write(t, k, e)))
  {
  }

  lemma WriteBase(s: State, t: Tid, k: Key, e: Entry)
    requires Base(s) && Enabled(s, Write(t, k, e))
    ensures var r := Next(s, Write(t, k, e));
            Base(r) && forall j: Key :: Current(r, j) == if j == k then Visible(Some(e)) else Current(s, j)
  {
  }

  lemma WriteStep(s: State, t: Tid, k: Key, e: Entry)
    requires Inv(s) && Enabled(s, Write(t, k, e))
    ensures Inv(Next(s, Write(t, k, e)))
  {
    var r := Next(s, Write(t, k, e));
    WriteBase(s, t, k, e);
    WriteLocks(s, t, k, e);
    forall j | j in r.hot ensures Excused(r, j, Some(r.hot[j])) {
      WriteExcuses(s, t, k, e, j, Some(r.hot[j]));
    }
    forall u | u in r.readers ensures ReaderOk(r, r.readers[u]) {
      WrittenReaderOk(s, t, k, e, u);
    }
  }

  lemma BumpStep(s: State, t: Tid)
    requires Inv(s) && Enabled(s, Bump(t))
    ensures Inv(Next(s, Bump(t)))
  {
    var r, w := Next(s, Bump(t)), s.writers[t];
    assert forall k: Key :: Current(r, k) == Current(s, k);
    forall k: Key, v: Option<Bytes> | Excused(s, k, v) ensures Excused(r, k, v) {
      if v != Current(s, k) {
        var u :| u in s.writers && s.writers[u].key == k && s.writers[u].prior == v;
        assert u in r.writers && r.writers[u].key == k && r.writers[u].prior == v;
      }
    }
    forall u | u in r.readers ensures ReaderOk(r, r.readers[u]) {
      var rd := r.readers[u];
      assert ReaderOk(s, rd);
      if s.shard(rd.key) != s.shard(w.key) {
        forall v | v in rd.seen && rd.epoch == Epoch(r, rd.key) ensures Fresh(r, rd.key, v) {
          assert Fresh(s, rd.key, v);
          if v != Current(s, rd.key) {
            var x :| x in s.writers && s.writers[x].key == rd.key && s.writers[x].prior == v && !s.writers[x].bumped;
            assert x in r.writers && r.writers[x] == s.writers[x];
          }
        }
      }
    }
  }

  lemma InvalidateStep(s: State, t: Tid)
    requires Inv(s) && Enabled(s, Invalidate(t))
    ensures Inv(Next(s, Invalidate(t)))
  {
    var r, w := Next(s, Invalidate(t)), s.writers[t];
    assert forall k: Key :: Current(r, k) == Current(s, k);
    forall k: Key, v: Option<Bytes> | Excused(s, k, v) && k != w.key ensures Excused(r, k, v) {
      if v != Current(s, k) {
        var u :| u in s.writers && s.writers[u].key == k && s.writers[u].prior == v;
        assert u in r.writers && r.writers[u] == s.writers[u];
      }
    }
    forall u | u in r.readers ensures ReaderOk(r, r.readers[u]) {
      var rd := r.readers[u];
      assert ReaderOk(s, rd);
      forall v | v in rd.seen && rd.epoch == Epoch(r, rd.key) ensures Fresh(r, rd.key, v) {
        assert Fresh(s, rd.key, v);
        if v != Current(s, rd.key) {
          var x :| x in s.writers && s.writers[x].key == rd.key && s.writers[x].prior == v && !s.writers[x].bumped;
          assert x in r.writers && r.writers[x] == s.writers[x];
        }
      }
    }
  }

  // ----- Readers

  /** Only the hot tier, the locks and the readers differ. */
  ghost predicate SameStore(s: State, r: State) {
    r == s.(hot := r.hot, locks := r.locks, readers := r.readers)
  }

  lemma SameExcused(s: State, r: State, k: Key, v: Option<Bytes>)
    requires SameStore(s, r)
    ensures Excused(r, k, v) <==> Excused(s, k, v)
    ensures Fresh(r, k, v) <==> Fresh(s, k, v)
    ensures Current(r, k) == Current(s, k) && Lower(r, k) == Lower(s, k) && Epoch(r, k) == Epoch(s, k)
  {
  }

  lemma SameReaderOk(s: State, r: State, rd: Reader)
    requires SameStore(s, r) && ReaderOk(s, rd)
    ensures ReaderOk(r, rd)
  {
    SameExcused(s, r, rd.key, None);
    if rd.phase.Locked? { SameExcused(s, r, rd.key, Some(rd.phase.w)); }
    forall v | v in rd.seen && rd.epoch == Epoch(r, rd.key) ensures Fresh(r, rd.key, v) {
      SameExcused(s, r, rd.key, v);
    }
  }

  /** A step of one reader, or of the hot tier. */
  lemma StoreUnchanged(s: State, r: State)
    requires Inv(s) && SameStore(s, r) && LocksOk(r)
    requires forall k | k in r.hot :: Excused(s, k, Some(r.hot[k]))
    requires forall t | t in r.readers :: ReaderOk(s, r.readers[t])
    ensures Inv(r)
  {
    forall k | k in r.hot ensures Excused(r, k, Some(r.hot[k])) {
      SameExcused(s, r, k, Some(r.hot[k]));
    }
    forall t | t in r.readers ensures ReaderOk(r, r.readers[t]) {
      SameReaderOk(s, r, r.readers[t]);
    }
  }

  lemma BeginStep(s: State, t: Tid, k: Key)
    requires Inv(s) && Enabled(s, Begin(t, k))
    ensures Inv(Next(s, Begin(t, k)))
  {
    var r := Next(s, Begin(t, k));
    BegunOk(s, t, k);
    StoreUnchanged(s, r);
  }

  lemma BegunOk(s: State, t: Tid, k: Key)
    requires Inv(s) && Enabled(s, Begin(t, k))
    ensures var r := Next(s, Begin(t, k)); LocksOk(r) && forall u | u in r.readers :: ReaderOk(s, r.readers[u])
  {
    assert ReaderOk(s, Next(s, Begin(t, k)).readers[t]);
  }

  lemma MoveStep(s: State, t: Tid, p: Phase)
    requires Inv(s) && t in s.readers && !s.readers[t].phase.Locked? && !p.Locked?
    requires ReaderOk(s, s.readers[t].(phase := p))
    ensures Inv(Move(s, t, p))
  {
    StoreUnchanged(s, Move(s, t, p));
  }

  /** Of a key that is in neither memtable map the list can show nothing but its value. */
  lemma AbsentSeen(s: State, rd: Reader)
    requires StoreOk(s) && rd.key !in s.active && !InParked(s, rd.key) && Current(s, rd.key) in rd.seen
    ensures AllSeen(s.store, rd)
  {
    forall v | S.Listable(s.store, rd.key, v) ensures v in rd.seen {
      S.ListableShown(s.store, rd.key, v);
    }
  }

  lemma ProbedOk(s: State, a: Action)
    requires Inv(s) && Enabled(s, a) && (a.ProbeActive? || a.ProbeParked? || a.ProbeList?)
    ensures ReaderOk(s, Next(s, a).readers[a.t])
  {
    var rd := s.readers[a.t];
    assert ReaderOk(s, rd);
    if a.ProbeActive? && rd.key !in s.active && !InParked(s, rd.key) { AbsentSeen(s, rd); }
    if a.ProbeList? { LiveListable(s.store, rd.key); }
  }

  lemma ProbeStep(s: State, a: Action)
    requires Inv(s) && Enabled(s, a) && (a.ProbeActive? || a.ProbeParked? || a.ProbeList?)
    ensures Inv(Next(s, a))
  {
    ProbedOk(s, a);
    MoveStep(s, a.t, Next(s, a).readers[a.t].phase);
  }

  lemma LockedOk(s: State, t: Tid)
    requires Inv(s) && Enabled(s, Lock(t))
    ensures ReaderOk(s, Next(s, Lock(t)).readers[t])
  {
    assert ReaderOk(s, s.readers[t]);
    assert Fresh(s, s.readers[t].key, s.readers[t].phase.v);
  }

  lemma LockTaken(s: State, t: Tid)
    requires LocksOk(s) && Enabled(s, Lock(t))
    ensures LocksOk(Next(s, Lock(t)))
  {
  }

  lemma LockStep(s: State, t: Tid)
    requires Inv(s) && Enabled(s, Lock(t))
    ensures Inv(Next(s, Lock(t)))
  {
    LockedOk(s, t);
    LockTaken(s, t);
    StoreUnchanged(s, Next(s, Lock(t)));
  }

  lemma LockReleased(s: State, t: Tid)
    requires LocksOk(s) && Enabled(s, Store(t))
    ensures LocksOk(Next(s, Store(t)))
  {
  }

  lemma StoreStep(s: State, t: Tid)
    requires Inv(s) && Enabled(s, Store(t))
    ensures Inv(Next(s, Store(t)))
  {
    assert ReaderOk(s, s.readers[t]);
    LockReleased(s, t);
    StoreUnchanged(s, Next(s, Store(t)));
  }

  lemma LeaveStep(s: State, a: Action)
    requires Inv(s) && Enabled(s, a) && (a.Finish? || a.Evict?)
    ensures Inv(Next(s, a))
  {
    StoreUnchanged(s, Next(s, a));
  }

  /** Every clean step keeps the invariant. */
  lemma StepKeepsInv(s: State, a: Action)
    requires Inv(s) && Enabled(s, a) && Clean(s, a)
    ensures Inv(Next(s, a))
  {
    match a
    case Write(t, k, e) => WriteStep(s, t, k, e);
    case Bump(t) => BumpStep(s, t);
    case Invalidate(t) => InvalidateStep(s, t);
    case Park => FlushSteps(s, a);
    case Swap => FlushSteps(s, a);
    case Publish => FlushSteps(s, a);
    case Clear => FlushSteps(s, a);
    case Reabsorb(_) => FlushSteps(s, a);
    case ClearFailed => ClearFailedStep(s);
    case Compact(c) => CompactStep(s, c); LayerStep(s, Next(s, a));
    case Hit(_) =>
    case Begin(t, k) => BeginStep(s, t, k);
    case ProbeActive(t) => ProbeStep(s, a);
    case ProbeParked(t) => ProbeStep(s, a);
    case ProbeList(t) => ProbeStep(s, a);
    case Lock(t) => LockStep(s, t);
    case Store(t) => StoreStep(s, t);
    case Finish(t) => LeaveStep(s, a);
    case Evict(k) => LeaveStep(s, a);
  }

  // ----- What every step keeps, readers apart

  predicate Tidy(s: State, a: Action)
    requires Enabled(s, a)
  {
    a.Compact? ==> S.Clean(s.store, a.c)
  }

  predicate SameLayers(s: State, r: State) {
    r.active == s.active && r.parked == s.parked && r.store == s.store && r.flush == s.flush
  }

  lemma LayersStay(s: State, a: Action)
    requires Enabled(s, a)
    requires !(a.Write? || a.Park? || a.Swap? || a.Publish? || a.Clear? || a.Reabsorb? || a.ClearFailed? || a.Compact?)
    ensures SameLayers(s, Next(s, a))
  {
  }

  lemma BaseStays(s: State, r: State, k: Key)
    requires Base(s) && SameLayers(s, r)
    ensures Base(r) && Current(r, k) == Current(s, k)
  {
  }

  /** A key changes its value by being written, and in no other way. */
  lemma StepKeepsBase(s: State, a: Action, k: Key)
    requires Base(s) && Enabled(s, a) && Tidy(s, a)
    ensures Base(Next(s, a))
    ensures Current(Next(s, a), k) == if a.Write? && a.k == k then Visible(Some(a.e)) else Current(s, k)
  {
    match a
    case Write(t, j, e) => WriteBase(s, t, j, e);
    case Park => MapStep(s, a);
    case Swap => MapStep(s, a);
    case Clear => MapStep(s, a);
    case ClearFailed => MapStep(s, a);
    case Publish => PublishStep(s);
    case Reabsorb(landed) => ReabsorbStep(s, landed);
    case Compact(c) => CompactStep(s, c);
    case _ => LayersStay(s, a); BaseStays(s, Next(s, a), k);
  }

  // ----- Runs

  /** `trace` is a run of the actions `acts` from the empty store. */
  ghost predicate IsRun(trace: seq<State>, acts: seq<Action>, shard: Key -> nat) {
    && |trace| == |acts| + 1 && trace[0] == Init(shard)
    && (forall i | 0 <= i < |acts| :: StepAt(trace, acts, i))
  }

  ghost predicate StepAt(trace: seq<State>, acts: seq<Action>, i: nat)
    requires i < |acts| && |trace| == |acts| + 1
  {
    Enabled(trace[i], acts[i]) && trace[i + 1] == Next(trace[i], acts[i])
  }

  ghost predicate TidyAt(trace: seq<State>, acts: seq<Action>, i: nat)
    requires i < |acts| && |trace| == |acts| + 1
  {
    StepAt(trace, acts, i) && Tidy(trace[i], acts[i])
  }

  /** The compactions are clean. */
  ghost predicate TidyRun(trace: seq<State>, acts: seq<Action>, shard: Key -> nat) {
    IsRun(trace, acts, shard) && forall i | 0 <= i < |acts| :: TidyAt(trace, acts, i)
  }

  ghost predicate CoveredAt(trace: seq<State>, acts: seq<Action>, i: nat)
    requires i < |acts| && |trace| == |acts| + 1
  {
    acts[i].ClearFailed? ==> Covered(trace[i])
  }

  /** And when a failed flush drops the parked map, every reader it can fail is covered. */
  ghost predicate CoveredRun(trace: seq<State>, acts: seq<Action>, shard: Key -> nat) {
    TidyRun(trace, acts, shard) && forall i | 0 <= i < |acts| :: CoveredAt(trace, acts, i)
  }

  lemma InitOk(shard: Key -> nat)
    ensures Inv(Init(shard))
  {
    S.OpeningGood([], 0);
  }

  lemma {:induction false} RunKeepsBase(trace: seq<State>, acts: seq<Action>, shard: Key -> nat, i: nat)
    requires TidyRun(trace, acts, shard) && i <= |acts|
    ensures Base(trace[i])
  {
    if i == 0 {
      InitOk(shard);
    } else {
      RunKeepsBase(trace, acts, shard, i - 1);
      assert TidyAt(trace, acts, i - 1);
      StepKeepsBase(trace[i - 1], acts[i - 1], []);
    }
  }

  lemma {:induction false} RunKeepsInv(trace: seq<State>, acts: seq<Action>, shard: Key -> nat, i: nat)
    requires CoveredRun(trace, acts, shard) && i <= |acts|
    ensures Inv(trace[i])
  {
    if i == 0 {
      InitOk(shard);
    } else {
      RunKeepsInv(trace, acts, shard, i - 1);
      assert TidyAt(trace, acts, i - 1) && CoveredAt(trace, acts, i - 1);
      StepKeepsInv(trace[i - 1], acts[i - 1]);
    }
  }

  /** In every state of every covered run, a value in the hot tier is the current value of its
      key, or one that a write to the key which has not returned yet has just replaced.  So once
      the writes to a key have returned, no read of the hot tier gives a stale value. */
  lemma HotTierIsCoherent(trace: seq<State>, acts: seq<Action>, shard: Key -> nat, i: nat, k: Key)
    requires CoveredRun(trace, acts, shard) && i <= |acts| && k in trace[i].hot
    ensures Excused(trace[i], k, Some(trace[i].hot[k]))
    ensures (forall t | t in trace[i].writers :: trace[i].writers[t].key != k) ==>
              Some(trace[i].hot[k]) == View(Memory(trace[i]), k)
  {
    RunKeepsInv(trace, acts, shard, i);
    CurrentIsView(trace[i], k);
  }

  /** Step `a` stores the value `v` of `k`. */
  predicate Stores(s: State, a: Action, k: Key, v: Bytes)
    requires Enabled(s, a)
  {
    a.Store? && s.readers[a.t].key == k && s.readers[a.t].phase.w == v
  }

  /** It changes what the hot tier has of `k`, if anything: by storing, invalidating or evicting. */
  predicate Touches(s: State, a: Action, k: Key)
    requires Enabled(s, a)
  {
    (a.Store? && s.readers[a.t].key == k) || (a.Invalidate? && s.writers[a.t].key == k) || a == Evict(k)
  }

  lemma HotStep(s: State, a: Action, k: Key, v: Bytes)
    requires Enabled(s, a)
    ensures var r := Next(s, a).hot;
            k in r && r[k] == v <==> Stores(s, a, k, v) || (k in s.hot && s.hot[k] == v && !Touches(s, a, k))
  {
  }

  ghost predicate StoresAt(trace: seq<State>, acts: seq<Action>, k: Key, v: Bytes, i: nat)
    requires |trace| == |acts| + 1 && i < |acts|
  {
    StepAt(trace, acts, i) && Stores(trace[i], acts[i], k, v)
  }

  ghost predicate TouchesAt(trace: seq<State>, acts: seq<Action>, k: Key, i: nat)
    requires |trace| == |acts| + 1 && i < |acts|
  {
    StepAt(trace, acts, i) && Touches(trace[i], acts[i], k)
  }

  /** Step `j` has stored `v`, and no step from there to `i` has touched `k`. */
  ghost predicate StoredAt(trace: seq<State>, acts: seq<Action>, k: Key, v: Bytes, j: nat, i: nat)
    requires |trace| == |acts| + 1 && j < i <= |acts|
  {
    StoresAt(trace, acts, k, v, j) && forall m | j < m < i :: !TouchesAt(trace, acts, k, m)
  }

  ghost predicate Held(trace: seq<State>, acts: seq<Action>, k: Key, v: Bytes, i: nat)
    requires |trace| == |acts| + 1 && i <= |acts|
  {
    exists j | 0 <= j < i :: StoredAt(trace, acts, k, v, j, i)
  }

  lemma HeldNext(trace: seq<State>, acts: seq<Action>, k: Key, v: Bytes, i: nat)
    requires |trace| == |acts| + 1 && 0 < i <= |acts|
    ensures Held(trace, acts, k, v, i) <==>
            StoresAt(trace, acts, k, v, i - 1) || (Held(trace, acts, k, v, i - 1) && !TouchesAt(trace, acts, k, i - 1))
  {
    if Held(trace, acts, k, v, i) {
      var j :| 0 <= j < i && StoredAt(trace, acts, k, v, j, i);
      if j < i - 1 { assert StoredAt(trace, acts, k, v, j, i - 1); }
    }
    if StoresAt(trace, acts, k, v, i - 1) { assert StoredAt(trace, acts, k, v, i - 1, i); }
    if Held(trace, acts, k, v, i - 1) && !TouchesAt(trace, acts, k, i - 1) {
      var j :| 0 <= j < i - 1 && StoredAt(trace, acts, k, v, j, i - 1);
      assert StoredAt(trace, acts, k, v, j, i);
    }
  }

  /** In every run: the hot tier has a value exactly if a read has stored it and no step since has
      stored another, invalidated the key or evicted it. */
  lemma {:induction false} HotIff(trace: seq<State>, acts: seq<Action>, shard: Key -> nat, i: nat, k: Key, v: Bytes)
    requires IsRun(trace, acts, shard) && i <= |acts|
    ensures k in trace[i].hot && trace[i].hot[k] == v <==> Held(trace, acts, k, v, i)
  {
    if i > 0 {
      HotIff(trace, acts, shard, i - 1, k, v);
      HeldNext(trace, acts, k, v, i);
      assert StepAt(trace, acts, i - 1);
      HotStep(trace[i - 1], acts[i - 1], k, v);
    }
  }

  // ----- What a reader has seen

  lemma ReaderEffect(s: State, a: Action, t: Tid)
    requires Enabled(s, a) && t in s.readers && t in Next(s, a).readers
    ensures var rd, next := s.readers[t], Next(s, a).readers[t];
            && next.key == rd.key
            && next.seen == if a.Write? && a.k == rd.key then rd.seen + {Visible(Some(a.e))} else rd.seen
  {
  }

  lemma BeginSeen(s: State, t: Tid, k: Key)
    requires Enabled(s, Begin(t, k))
    ensures var r := Next(s, Begin(t, k));
            t in r.readers && r.readers[t].key == k && r.readers[t].seen == {Current(r, k)}
  {
  }

  /** Thread `t` reads `k` from step `b` on, and has not finished before `r`. */
  ghost predicate Reading(trace: seq<State>, acts: seq<Action>, t: Tid, k: Key, b: nat, r: nat)
    requires |trace| == |acts| + 1
  {
    b < r <= |acts| && acts[b] == Begin(t, k) && forall j | b < j <= r :: t in trace[j].readers
  }

  /** The values of `k` from `b` to `r`. */
  function History(trace: seq<State>, k: Key, b: nat, r: nat): (vs: set<Option<Bytes>>)
    requires b <= r < |trace|
  {
    set i | b < i <= r :: Current(trace[i], k)
  }

  lemma HistoryGrows(trace: seq<State>, k: Key, b: nat, r: nat)
    requires b < r < |trace|
    ensures History(trace, k, b, r) == History(trace, k, b, r - 1) + {Current(trace[r], k)}
  {
  }

  lemma LastSeen(trace: seq<State>, k: Key, b: nat, r: nat)
    requires b < r < |trace|
    ensures Current(trace[r], k) in History(trace, k, b, r)
  {
  }

  /** In every run with clean compactions, what a reader has seen are exactly the values its key
      has had since the fill guard was taken. */
  lemma {:induction false} SeenIsHistory(trace: seq<State>, acts: seq<Action>, shard: Key -> nat, t: Tid, k: Key, b: nat, r: nat)
    requires TidyRun(trace, acts, shard) && Reading(trace, acts, t, k, b, r)
    ensures trace[r].readers[t].key == k && trace[r].readers[t].seen == History(trace, k, b, r)
    decreases r
  {
    assert TidyAt(trace, acts, r - 1);
    if r == b + 1 {
      BeginSeen(trace[b], t, k);
    } else {
      SeenIsHistory(trace, acts, shard, t, k, b, r - 1);
      RunKeepsBase(trace, acts, shard, r - 1);
      StepKeepsBase(trace[r - 1], acts[r - 1], k);
      ReaderEffect(trace[r - 1], acts[r - 1], t);
      HistoryGrows(trace, k, b, r);
      LastSeen(trace, k, b, r - 1);
    }
  }

  /** In every covered run, a read that goes through the layers returns a value its key had at some
      moment between the start of the read and its answer, whatever writes, flushes and
      compactions go on meanwhile. */
  lemma LayeredReadIsLinearizable(trace: seq<State>, acts: seq<Action>, shard: Key -> nat,
                                  t: Tid, k: Key, b: nat, r: nat, v: Option<Bytes>)
    requires CoveredRun(trace, acts, shard) && Reading(trace, acts, t, k, b, r)
    requires trace[r].readers[t].phase == Resolved(v)
    ensures exists i :: b < i <= r && v == View(Memory(trace[i]), k)
  {
    RunKeepsInv(trace, acts, shard, r);
    assert ReaderOk(trace[r], trace[r].readers[t]);
    SeenIsHistory(trace, acts, shard, t, k, b, r);
    var i :| b < i <= r && v == Current(trace[i], k);
    CurrentIsView(trace[i], k);
  }

  // ----- Reads that the hot tier answers

  /** A write under way has replaced the value that was current when it was applied. */
  lemma {:induction false} PriorIsRecent(trace: seq<State>, acts: seq<Action>, shard: Key -> nat, i: nat, j: nat, t: Tid, k: Key)
    returns (m: nat)
    requires IsRun(trace, acts, shard) && i <= j <= |acts| && t in trace[j].writers && trace[j].writers[t].key == k
    requires forall u | u in trace[i].writers :: trace[i].writers[u].key != k
    ensures i <= m < j && trace[j].writers[t].prior == Current(trace[m], k)
    decreases j
  {
    assert j > i;
    assert StepAt(trace, acts, j - 1);
    var a := acts[j - 1];
    if a.Write? && a.t == t {
      m := j - 1;
    } else {
      assert t in trace[j - 1].writers && trace[j - 1].writers[t].key == k && trace[j - 1].writers[t].prior == trace[j].writers[t].prior;
      m := PriorIsRecent(trace, acts, shard, i, j - 1, t, k);
    }
  }

  /** In every covered run, a read that the hot tier answers returns a value its key has had since
      any moment at which no write to the key was under way. */
  lemma HitIsRecent(trace: seq<State>, acts: seq<Action>, shard: Key -> nat, i: nat, j: nat, k: Key)
    requires CoveredRun(trace, acts, shard) && i <= j < |acts| && acts[j] == Hit(k)
    requires forall t | t in trace[i].writers :: trace[i].writers[t].key != k
    ensures k in trace[j].hot
    ensures exists m :: i <= m <= j && Some(trace[j].hot[k]) == View(Memory(trace[m]), k)
  {
    assert TidyAt(trace, acts, j);
    HotTierIsCoherent(trace, acts, shard, j, k);
    var v := Some(trace[j].hot[k]);
    var m := j;
    if v != Current(trace[j], k) {
      var t :| t in trace[j].writers && trace[j].writers[t].key == k && trace[j].writers[t].prior == v;
      m := PriorIsRecent(trace, acts, shard, i, j, t, k);
    }
    CurrentIsView(trace[m], k);
  }

  // ----- A reader past the active map

  /** What it can still find has been seen, whatever becomes of the parked map. */
  ghost predicate Secure(s: State, rd: Reader) {
    && (rd.phase == MissedActive || rd.phase == MissedParked ==> Visible(Lower(s, rd.key)) in rd.seen && AllSeen(s.store, rd))
    && (rd.phase.Resolved? ==> rd.phase.v in rd.seen)
    && rd.phase != Probing
  }

  lemma SecureLayers(s: State, r: State, rd: Reader)
    requires Secure(s, rd) && Current(s, rd.key) in rd.seen && BelowOk(s, r, rd.key)
    ensures Secure(r, rd)
  {
    if rd.phase == MissedActive || rd.phase == MissedParked {
      forall v | S.Listable(r.store, rd.key, v) ensures v in rd.seen {
        assert WasListable(s, rd.key, v);
      }
    }
  }

  lemma SecureCleared(s: State, rd: Reader)
    requires Secure(s, rd) && Enabled(s, ClearFailed)
    ensures Secure(Next(s, ClearFailed), rd)
  {
    LiveListable(s.store, rd.key);
  }

  lemma SecureSame(s: State, r: State, rd: Reader, next: Reader)
    requires Secure(s, rd) && r.parked == s.parked && r.store == s.store
    requires next.key == rd.key && rd.seen <= next.seen && (next.phase == rd.phase || next.phase.Locked?)
    ensures Secure(r, next)
  {
  }

  lemma SecureProbed(s: State, a: Action)
    requires Enabled(s, a) && (a.ProbeParked? || a.ProbeList?) && Secure(s, s.readers[a.t])
    ensures Secure(Next(s, a), Next(s, a).readers[a.t])
  {
    var rd := s.readers[a.t];
    LiveListable(s.store, rd.key);
    assert Lower(Next(s, a), rd.key) == Lower(s, rd.key);
  }

  predicate Probes(a: Action, t: Tid) {
    a == ProbeActive(t) || a == ProbeParked(t) || a == ProbeList(t)
  }

  lemma PhaseEffect(s: State, a: Action, t: Tid)
    requires Enabled(s, a) && t in s.readers && t in Next(s, a).readers && !Probes(a, t)
    ensures Next(s, a).readers[t].phase == s.readers[t].phase || Next(s, a).readers[t].phase.Locked?
  {
  }

  predicate MovesLayers(a: Action) {
    a.Park? || a.Swap? || a.Publish? || a.Clear? || a.Reabsorb? || a.Compact?
  }

  lemma LayersMove(s: State, a: Action, k: Key)
    requires Base(s) && Enabled(s, a) && Tidy(s, a) && MovesLayers(a)
    ensures BelowOk(s, Next(s, a), k) && Next(s, a).readers == s.readers
  {
    match a
    case Publish => PublishStep(s);
    case Reabsorb(landed) => ReabsorbStep(s, landed);
    case Compact(c) => CompactStep(s, c);
    case _ => MapStep(s, a);
  }

  lemma MapsStay(s: State, a: Action)
    requires Enabled(s, a) && !MovesLayers(a) && !a.ClearFailed?
    ensures Next(s, a).parked == s.parked && Next(s, a).store == s.store
  {
  }

  lemma SecureStep(s: State, a: Action, t: Tid)
    requires Base(s) && Enabled(s, a) && Tidy(s, a) && t in s.readers && t in Next(s, a).readers
    requires Secure(s, s.readers[t]) && Current(s, s.readers[t].key) in s.readers[t].seen
    ensures Secure(Next(s, a), Next(s, a).readers[t])
  {
    var r, rd := Next(s, a), s.readers[t];
    if MovesLayers(a) {
      LayersMove(s, a, rd.key);
      SecureLayers(s, r, rd);
    } else if a.ClearFailed? {
      SecureCleared(s, rd);
    } else if Probes(a, t) {
      SecureProbed(s, a);
    } else {
      ReaderEffect(s, a, t);
      PhaseEffect(s, a, t);
      MapsStay(s, a);
      SecureSame(s, r, rd, r.readers[t]);
    }
  }

  /** So a reader for whom all has been seen reads rightly in every run that goes on from there. */
  lemma {:induction false} StaysSecure(trace: seq<State>, acts: seq<Action>, shard: Key -> nat, t: Tid, k: Key, b: nat, i: nat, r: nat)
    requires TidyRun(trace, acts, shard) && Reading(trace, acts, t, k, b, r) && b < i <= r
    requires Secure(trace[i], trace[i].readers[t])
    ensures Secure(trace[r], trace[r].readers[t])
    decreases r
  {
    if i < r {
      StaysSecure(trace, acts, shard, t, k, b, i, r - 1);
      assert TidyAt(trace, acts, r - 1);
      RunKeepsBase(trace, acts, shard, r - 1);
      SeenIsHistory(trace, acts, shard, t, k, b, r - 1);
      LastSeen(trace, k, b, r - 1);
      SecureStep(trace[r - 1], acts[r - 1], t);
    }
  }

  /** The parked value has been seen by a reader that is about to look for it. */
  ghost predicate ParkedSeen(s: State, rd: Reader) {
    rd.phase == MissedActive && InParked(s, rd.key) ==> Visible(Some(s.parked.value[rd.key])) in rd.seen
  }

  lemma ParkedSeenStep(s: State, a: Action, t: Tid)
    requires Enabled(s, a) && t in s.readers && t in Next(s, a).readers
    requires ParkedSeen(s, s.readers[t]) && Current(s, s.readers[t].key) in s.readers[t].seen
    ensures ParkedSeen(Next(s, a), Next(s, a).readers[t])
  {
    ReaderEffect(s, a, t);
    if !Probes(a, t) { PhaseEffect(s, a, t); }
  }

  lemma {:induction false} CaughtSawParked(trace: seq<State>, acts: seq<Action>, shard: Key -> nat, t: Tid, k: Key, b: nat, r: nat)
    requires TidyRun(trace, acts, shard) && Reading(trace, acts, t, k, b, r)
    ensures ParkedSeen(trace[r], trace[r].readers[t])
    decreases r
  {
    assert TidyAt(trace, acts, r - 1);
    if r > b + 1 {
      CaughtSawParked(trace, acts, shard, t, k, b, r - 1);
      SeenIsHistory(trace, acts, shard, t, k, b, r - 1);
      LastSeen(trace, k, b, r - 1);
      ParkedSeenStep(trace[r - 1], acts[r - 1], t);
    }
  }
}
