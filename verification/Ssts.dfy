/** The SST files of the storage engine and the list of their open readers, through flushes and
    compactions (`flush_active`, `load_sst_readers`, `compact_ssts` and `compact_partial` in
    src/storage/engine.rs): what the files and the list may show, at every point where a crash or
    a failed step can leave them. */
module Ssts {
  import opened Basics
  import opened Lsm

  // ----- Files by number

  function Nums(fs: seq<File>): (s: set<nat>) {
    set f | f in fs :: f.number
  }

  lemma FileOf(fs: seq<File>, n: nat) returns (f: File)
    requires n in Nums(fs)
    ensures f in fs && f.number == n
  {
    f :| f in fs && f.number == n;
  }

  /** The files from `fs[i]` on whose numbers are wanted, in order. */
  function PickedFrom(fs: seq<File>, i: nat, want: nat -> bool): (r: seq<File>)
    requires i <= |fs|
    ensures forall g :: g in r <==> g in fs[i..] && want(g.number)
    ensures Descending(fs) ==> Descending(r)
    decreases |fs| - i
  {
    if i == |fs| then []
    else
      assert fs[i..] == [fs[i]] + fs[i + 1..];
      var rest := PickedFrom(fs, i + 1, want);
      if want(fs[i].number) then [fs[i]] + rest else rest
  }

  function Picked(fs: seq<File>, want: nat -> bool): (r: seq<File>)
    ensures forall g :: g in r <==> g in fs && want(g.number)
    ensures Descending(fs) ==> Descending(r)
  {
    assert fs[0..] == fs;
    PickedFrom(fs, 0, want)
  }

  /** A file is renamed into place, over the one with its number if there is one. */
  function Renamed(disk: seq<File>, f: File): (r: seq<File>)
    ensures forall g :: g in r <==> g == f || (g in disk && g.number != f.number)
    ensures Descending(disk) ==> Descending(r)
  {
    Picked(disk, n => n > f.number) + [f] + Picked(disk, n => n < f.number)
  }

  function Unlinked(disk: seq<File>, nums: set<nat>): (r: seq<File>)
    ensures forall g :: g in r <==> g in disk && g.number !in nums
    ensures Descending(disk) ==> Descending(r)
  {
    Picked(disk, n => n !in nums)
  }

  // ----- The store and its steps

  /** A compaction under way: the readers it merges, as they were listed when it started, their
      numbers, the number its output takes, and whether it drops tombstones. */
  datatype Job = NoJob | Job(full: bool, inputs: seq<File>, nums: set<nat>, target: nat, drop: bool)

  /** `disk` and `open` list the files and the open readers, newest first; `next` is the next
      file number. */
  datatype Store = Store(disk: seq<File>, open: seq<File>, next: nat, job: Job)

  datatype Change =
    | Flush(l: Layer)            // the SST is written and the list reloaded
    | Land(l: Layer)             // the SST is written, reloading the list fails
    | Waste                      // a number is taken, no SST comes of it
    | StartFull
    | StartPartial(i: nat, j: nat)
    | GiveUp                     // the merge or the rename of its output fails
    | Commit
    | Abort(left: nat)           // the commit fails with the `left` newest inputs still there

  predicate Can(st: Store, c: Change) {
    match c
    case Flush(_) => true
    case Land(_) => true
    case Waste => true
    case StartFull => st.job.NoJob?
    case StartPartial(i, j) => st.job.NoJob? && i < j < |st.open|
    case GiveUp => st.job.Job?
    case Commit => st.job.Job?
    case Abort(left) => st.job.Job? && left <= |st.job.inputs|
  }

  function Output(job: Job): (f: File)
    requires job.Job?
  {
    File(job.target, Merged(Layers(job.inputs), job.drop))
  }

  /** What the commit unlinks: the inputs behind the `left` newest, oldest first, but not the
      file that the output has replaced. */
  function Gone(job: Job, left: nat): (nums: set<nat>)
    requires job.Job? && left <= |job.inputs|
  {
    Nums(job.inputs[left..]) - {job.target}
  }

  /** The files while the compaction commits. */
  function Committing(st: Store, left: nat): (disk: seq<File>)
    requires st.job.Job? && left <= |st.job.inputs|
  {
    Renamed(Unlinked(st.disk, Gone(st.job, left)), Output(st.job))
  }

  /** The readers that the reload after a commit may keep: of a partial one, none of its run. */
  function Kept(st: Store): (open: seq<File>)
    requires st.job.Job?
  {
    if st.job.full then st.open else Unlinked(st.open, st.job.nums)
  }

  /** The list is reloaded. */
  function Refreshed(st: Store): (r: Store) {
    st.(open := Reload(st.disk, st.open))
  }

  function Landed(st: Store, l: Layer): (r: Store) {
    st.(disk := [File(st.next, l)] + st.disk, next := st.next + 1)
  }

  function Aborted(st: Store, left: nat): (r: Store)
    requires st.job.Job? && left <= |st.job.inputs|
  {
    st.(disk := Committing(st, left), job := NoJob)
  }

  function Committed(st: Store): (r: Store)
    requires st.job.Job?
  {
    st.(disk := Committing(st, 0), open := Reload(Committing(st, 0), Kept(st)), job := NoJob)
  }

  function RunJob(open: seq<File>, i: nat, j: nat): (job: Job)
    requires i < j < |open|
  {
    Job(false, open[i..j + 1], Nums(open[i..j + 1]), open[j].number, j == |open| - 1)
  }

  function After(st: Store, c: Change): (r: Store)
    requires Can(st, c)
  {
    match c
    case Flush(l) => Refreshed(Landed(st, l))
    case Land(l) => Landed(st, l)
    case Waste => st.(next := st.next + 1)
    case StartFull => st.(job := Job(true, st.open, Nums(st.open), st.next, true), next := st.next + 1)
    case StartPartial(i, j) => st.(job := RunJob(st.open, i, j))
    case GiveUp => st.(job := NoJob)
    case Commit => Committed(st)
    case Abort(left) => Aborted(st, left)
  }

  /** The files a crash can leave: those of now, or of any point of the commit. */
  predicate CrashDisk(st: Store, disk: seq<File>) {
    disk == st.disk || (st.job.Job? && exists left :: 0 <= left <= |st.job.inputs| && disk == Committing(st, left))
  }

  /** What a read of the list gives, and what a restart would give. */
  function Live(st: Store, k: Key): (v: Option<Bytes>) {
    View(Layers(st.open), k)
  }

  function Durable(st: Store, k: Key): (v: Option<Bytes>) {
    View(Layers(st.disk), k)
  }

  /** The values of `k` that the store shows or may come to show: those of the list and of the
      files, and, until a newer file has `k`, that of the inputs of a full compaction. */
  ghost predicate Shows(st: Store, k: Key, v: Option<Bytes>) {
    || v == Live(st, k) || v == Durable(st, k)
    || (st.job.Job? && st.job.full && v == View(Layers(st.job.inputs), k)
        && forall f | f in st.disk && f.number > st.job.target :: k !in f.layer)
  }

  // ----- Steps after which nothing is lost

  /** Files that have no reader are newer than all readers. */
  predicate Ahead(st: Store) {
    forall f, g | f in st.disk && g in st.open && f.number !in Nums(st.open) :: f.number > g.number
  }

  /** And every reader has its file. */
  predicate Level(st: Store) {
    Ahead(st) && Nums(st.open) <= Nums(st.disk)
  }

  /** A compaction starts from a list that is not behind the files, and a partial one does not
      fail after it has unlinked an input. */
  predicate Clean(st: Store, c: Change)
    requires Can(st, c)
  {
    match c
    case StartFull => Ahead(st)
    case StartPartial(_, _) => Level(st)
    case Abort(left) => st.job.full || Gone(st.job, left) == {}
    case _ => true
  }

  // ----- Newest entries

  /** `f` is the newest of the files that hold `k`. */
  ghost predicate Newest(fs: seq<File>, k: Key, f: File) {
    f in fs && k in f.layer && forall g | g in fs && g.number > f.number :: k !in g.layer
  }

  ghost predicate Nowhere(fs: seq<File>, k: Key) {
    forall g | g in fs :: k !in g.layer
  }

  lemma NewestFound(fs: seq<File>, k: Key, f: File)
    requires Descending(fs) && Newest(fs, k, f)
    ensures Find(Layers(fs), 0, k) == Some(f.layer[k])
  {
    var i :| 0 <= i < |fs| && fs[i] == f;
    assert forall j | 0 <= j < i :: fs[j] in fs;
    FindAt(Layers(fs), 0, i, k);
  }

  lemma NothingFound(fs: seq<File>, k: Key)
    requires Nowhere(fs, k)
    ensures Find(Layers(fs), 0, k) == None
  {
    assert forall j | 0 <= j < |fs| :: fs[j] in fs;
    FindEmpty(Layers(fs), 0, k);
  }

  lemma {:induction false} NewestOf(fs: seq<File>, k: Key, i: nat) returns (f: Option<File>)
    requires Descending(fs) && i <= |fs| && forall j | 0 <= j < i :: k !in fs[j].layer
    ensures f.None? ==> Nowhere(fs, k)
    ensures f.Some? ==> Newest(fs, k, f.value)
    decreases |fs| - i
  {
    if i == |fs| {
      f := None;
    } else if k in fs[i].layer {
      f := Some(fs[i]);
      forall g | g in fs && g.number > fs[i].number ensures k !in g.layer {
        var j :| 0 <= j < |fs| && fs[j] == g;
      }
    } else {
      f := NewestOf(fs, k, i + 1);
    }
  }

  /** Numbers tell files apart. */
  lemma SameFile(fs: seq<File>, f: File, g: File)
    requires Descending(fs) && f in fs && g in fs && f.number == g.number
    ensures f == g
  {
    var i :| 0 <= i < |fs| && fs[i] == f;
    var j :| 0 <= j < |fs| && fs[j] == g;
  }

  lemma ReloadHas(disk: seq<File>, open: seq<File>, f: File)
    requires f in disk
    ensures Opened(f, open) in Reload(disk, open)
  {
    var i :| 0 <= i < |disk| && disk[i] == f;
    assert Reload(disk, open)[i] == Opened(f, open);
  }

  lemma ReloadFrom(disk: seq<File>, open: seq<File>, g: File) returns (f: File)
    requires g in Reload(disk, open)
    ensures f in disk && g == Opened(f, open) && g.number == f.number
  {
    var r := Reload(disk, open);
    var i :| 0 <= i < |r| && r[i] == g;
    f := disk[i];
  }

  lemma ReloadDescending(disk: seq<File>, open: seq<File>)
    requires Descending(disk)
    ensures Descending(Reload(disk, open))
  {
  }

  /** A file with a reader is read through it. */
  lemma OpenedReader(open: seq<File>, f: File, g: File)
    requires Descending(open) && g in open && g.number == f.number
    ensures Opened(f, open) == g
  {
    DescendingDistinct(open);
    OpenedIs(f, open, g);
  }

  // ----- What clean steps keep

  predicate Numbered(st: Store) {
    && Descending(st.disk) && Descending(st.open)
    && (forall f | f in st.disk :: f.number < st.next) && (forall g | g in st.open :: g.number < st.next)
  }

  function Get(l: Layer, k: Key): (e: Option<Entry>) {
    if k in l then Some(l[k]) else None
  }

  /** A newer reader, whose file is on disk, holds `k`. */
  ghost predicate Shaded(st: Store, n: nat, k: Key) {
    exists h :: h in st.open && h.number > n && k in h.layer && h.number in Nums(st.disk)
  }

  ghost predicate Oldest(disk: seq<File>, n: nat) {
    forall x | x in disk :: n <= x.number
  }

  /** File `f` and its reader `g` give the same for `k`, as far as anybody can tell: they hold
      the same, or newer ones decide, or a tombstone was dropped below which there is nothing. */
  ghost predicate Agrees(st: Store, f: File, g: File, k: Key) {
    || Get(f.layer, k) == Get(g.layer, k) || Shaded(st, g.number, k)
    || (Oldest(st.disk, f.number) && Get(g.layer, k) == Some(Tombstone) && k !in f.layer)
  }

  ghost predicate TwinOk(st: Store, f: File, g: File) {
    forall k: Key :: Agrees(st, f, g, k)
  }

  ghost predicate Twins(st: Store) {
    forall f, g | f in st.disk && g in st.open && f.number == g.number :: TwinOk(st, f, g)
  }

  /** Of the files `fs`, all but those numbered `nums` are newer than the inputs. */
  predicate NewerThan(fs: seq<File>, inputs: seq<File>, nums: set<nat>) {
    forall f, g | f in fs && g in inputs && f.number !in nums :: f.number > g.number
  }

  /** The readers of files with other numbers show what is in them. */
  predicate ExactBut(disk: seq<File>, open: seq<File>, nums: set<nat>) {
    forall f, g | f in disk && g in open && f.number == g.number && f.number !in nums :: f == g
  }

  /** A full compaction: nothing but its inputs is as old as they are, those whose files are there
      are listed, and the readers of other files show what is in them. */
  predicate FullOk(st: Store)
    requires st.job.Job?
  {
    var job := st.job;
    && job.drop && job.target < st.next && job.target !in Nums(st.disk) && job.target !in Nums(st.open)
    && (forall g | g in job.inputs :: g.number < job.target) && job.nums * Nums(st.disk) <= Nums(st.open)
    && FullApart(st.disk, st.open, job.inputs, job.nums)
  }

  predicate FullApart(disk: seq<File>, open: seq<File>, inputs: seq<File>, nums: set<nat>) {
    NewerThan(disk, inputs, nums) && NewerThan(open, inputs, nums) && ExactBut(disk, open, nums)
  }

  /** Every member of the run is on disk and listed. */
  predicate Listed(run: seq<File>, nums: set<nat>, disk: seq<File>, open: seq<File>) {
    nums <= Nums(disk) && forall g | g in run :: g in open
  }

  /** No other file has a number among those of the run. */
  predicate Apart(disk: seq<File>, run: seq<File>, nums: set<nat>, target: nat) {
    forall f, g | f in disk && g in run && f.number !in nums :: f.number > g.number || f.number < target
  }

  /** A partial compaction: its run is on disk and listed, with nothing in between, and its
      tombstones are dropped exactly if there is nothing below. */
  ghost predicate PartialOk(st: Store)
    requires st.job.Job?
  {
    var job := st.job;
    && job.inputs != [] && job.target == job.inputs[|job.inputs| - 1].number
    && RunOk(st.disk, st.open, job.inputs, job.nums, job.target, job.drop)
  }

  ghost predicate RunOk(disk: seq<File>, open: seq<File>, run: seq<File>, nums: set<nat>, target: nat, drop: bool) {
    Listed(run, nums, disk, open) && Apart(disk, run, nums, target) && (drop <==> Oldest(disk, target))
  }

  predicate Named(job: Job)
    requires job.Job?
  {
    Descending(job.inputs) && job.nums == Nums(job.inputs)
  }

  ghost predicate JobOk(st: Store) {
    st.job.Job? ==>
      && Named(st.job)
      && if st.job.full then FullOk(st) else PartialOk(st)
  }

  ghost predicate Good(st: Store) {
    Numbered(st) && Twins(st) && JobOk(st)
  }

  // ----- A reload shows what is on disk

  /** A file that holds `k`: so does its reader, or one that is newer. */
  lemma SeenThrough(st: Store, f: File, k: Key) returns (h: File)
    requires Numbered(st) && Twins(st) && f in st.disk && k in f.layer
    ensures h in Reload(st.disk, st.open) && h.number >= f.number && k in h.layer
  {
    var g := Opened(f, st.open);
    ReloadHas(st.disk, st.open, f);
    h := g;
    if k !in g.layer {
      assert g in st.open;
      assert TwinOk(st, f, g) && Agrees(st, f, g, k);
      h := ShadeSeen(st, g.number, k);
    }
  }

  /** What shades a file is in the reloaded list. */
  lemma ShadeSeen(st: Store, n: nat, k: Key) returns (h: File)
    requires Numbered(st) && Shaded(st, n, k)
    ensures h in Reload(st.disk, st.open) && h.number > n && k in h.layer
  {
    h :| h in st.open && h.number > n && k in h.layer && h.number in Nums(st.disk);
    var f := FileOf(st.disk, h.number);
    OpenedReader(st.open, f, h);
    ReloadHas(st.disk, st.open, f);
  }

  /** The newest reader of the reloaded list that holds `k`, and its file. */
  lemma NewestAgrees(st: Store, f: File, h: File, k: Key)
    requires Numbered(st) && Twins(st) && f in st.disk && h == Opened(f, st.open)
    requires Newest(Reload(st.disk, st.open), k, h)
    ensures || (Newest(st.disk, k, f) && f.layer[k] == h.layer[k])
            || (Nowhere(st.disk, k) && h.layer[k] == Tombstone && Oldest(st.disk, f.number))
  {
    forall x | x in st.disk && k in x.layer ensures x.number <= f.number {
      var y := SeenThrough(st, x, k);
    }
    if h in st.open {
      assert TwinOk(st, f, h) && Agrees(st, f, h, k);
      if Shaded(st, h.number, k) { var y := ShadeSeen(st, h.number, k); }
      if k !in f.layer {
        forall x | x in st.disk ensures k !in x.layer {
          if k in x.layer { SameFile(st.disk, x, f); }
        }
      }
    }
  }

  lemma ReloadSees(st: Store, k: Key)
    requires Numbered(st) && Twins(st)
    ensures View(Layers(Reload(st.disk, st.open)), k) == Durable(st, k)
  {
    var r := Reload(st.disk, st.open);
    ReloadDescending(st.disk, st.open);
    var h := NewestOf(r, k, 0);
    if h.Some? {
      var f := ReloadFrom(st.disk, st.open, h.value);
      NewestAgrees(st, f, h.value, k);
      NewestFound(r, k, h.value);
      if Newest(st.disk, k, f) { NewestFound(st.disk, k, f); } else { NothingFound(st.disk, k); }
    } else {
      forall f | f in st.disk ensures k !in f.layer {
        if k in f.layer { var y := SeenThrough(st, f, k); }
      }
      NothingFound(r, k);
      NothingFound(st.disk, k);
    }
  }

  // ----- What a flush shows

  lemma ViewCons(f: File, fs: seq<File>, k: Key)
    ensures View(Layers([f] + fs), k) == if k in f.layer then Visible(Some(f.layer[k])) else View(Layers(fs), k)
  {
    LayersAppend([f], fs);
    assert Layers([f]) == [f.layer];
    FindAppend([f.layer], Layers(fs), k);
    FindOne(f.layer, k);
  }

  lemma LandView(st: Store, l: Layer, k: Key)
    ensures Durable(Landed(st, l), k) == if k in l then Visible(Some(l[k])) else Durable(st, k)
  {
    ViewCons(File(st.next, l), st.disk, k);
  }

  // ----- What a full compaction shows, at every point of its commit

  lemma OutputGet(job: Job, k: Key)
    requires job.Job?
    ensures var e := Find(Layers(job.inputs), 0, k);
            Get(Output(job).layer, k) == if job.drop && e == Some(Tombstone) then None else e
  {
    MergedFinds(Layers(job.inputs), job.drop, k);
    FindOne(Output(job).layer, k);
  }

  /** The oldest inputs go first. */
  lemma GoneOlder(job: Job, left: nat, n: nat, m: nat)
    requires job.Job? && left <= |job.inputs| && Named(job)
    requires n in Gone(job, left) && m in job.nums && m !in Gone(job, left) && m != job.target
    ensures n < m
  {
    var g := FileOf(job.inputs[left..], n);
    var i :| left <= i < |job.inputs| && job.inputs[i] == g;
    var h := FileOf(job.inputs, m);
    var j :| 0 <= j < |job.inputs| && job.inputs[j] == h;
    TailIn(job.inputs, left, j);
  }

  lemma TailIn(fs: seq<File>, left: nat, j: nat)
    requires left <= |fs| && j < |fs|
    ensures left <= j ==> fs[j].number in Nums(fs[left..])
  {
    if left <= j { assert fs[left..][j - left] == fs[j]; }
  }

  lemma GoneInput(job: Job, left: nat, n: nat) returns (g: File)
    requires job.Job? && left <= |job.inputs| && n in Gone(job, left)
    ensures g in job.inputs && g.number == n
  {
    g := FileOf(job.inputs[left..], n);
  }

  /** What a full compaction unlinks is older than what it leaves. */
  lemma FullGone(st: Store, left: nat, f: File, n: nat)
    requires st.job.Job? && Named(st.job) && FullOk(st) && left <= |st.job.inputs|
    requires (f in st.disk || f in st.open) && f.number !in Gone(st.job, left) && n in Gone(st.job, left)
    ensures n < f.number
  {
    var g := GoneInput(st.job, left, n);
    if f.number in st.job.nums { GoneOlder(st.job, left, n, f.number); }
  }

  /** An older file that is still there when the output does not hold `k` was the newest. */
  lemma FullOlder(st: Store, left: nat, k: Key, f: File)
    requires Good(st) && st.job.Job? && st.job.full && left <= |st.job.inputs|
    requires Newest(Committing(st, left), k, f) && f.number < st.job.target
    ensures Newest(st.disk, k, f)
  {
    forall g | g in st.disk && g.number > f.number ensures k !in g.layer {
      if g.number in Gone(st.job, left) {
        FullGone(st, left, f, g.number);
      } else {
        assert g in Committing(st, left);
      }
    }
  }

  lemma FullView(st: Store, left: nat, k: Key)
    requires Good(st) && st.job.Job? && st.job.full && left <= |st.job.inputs|
    ensures Shows(st, k, View(Layers(Committing(st, left)), k))
  {
    var disk, z := Committing(st, left), Output(st.job);
    OutputGet(st.job, k);
    var f := NewestOf(disk, k, 0);
    if f.Some? {
      NewestFound(disk, k, f.value);
      if f.value.number > z.number {
        assert Newest(st.disk, k, f.value) by { FullNewer(st, left, k, f.value); }
        NewestFound(st.disk, k, f.value);
      } else if f.value.number == z.number {
        FullNothingNewer(st, left, k);
        SameFile(disk, f.value, z);
      } else {
        FullOlder(st, left, k, f.value);
        NewestFound(st.disk, k, f.value);
      }
    } else {
      NothingFound(disk, k);
      assert z in disk;
      FullNothingNewer(st, left, k);
    }
  }

  lemma FullNewer(st: Store, left: nat, k: Key, f: File)
    requires Good(st) && st.job.Job? && st.job.full && left <= |st.job.inputs|
    requires Newest(Committing(st, left), k, f) && f.number > st.job.target
    ensures Newest(st.disk, k, f)
  {
    forall g | g in st.disk && g.number > f.number ensures k !in g.layer {
      assert g.number !in Gone(st.job, left);
      assert g in Committing(st, left);
    }
  }

  lemma FullNothingNewer(st: Store, left: nat, k: Key)
    requires Good(st) && st.job.Job? && st.job.full && left <= |st.job.inputs|
    requires forall g | g in Committing(st, left) && g.number > st.job.target :: k !in g.layer
    ensures forall g | g in st.disk && g.number > st.job.target :: k !in g.layer
  {
    forall g | g in st.disk && g.number > st.job.target ensures k !in g.layer {
      assert g.number !in Gone(st.job, left);
      assert g in Committing(st, left);
    }
  }

  // ----- What a partial compaction shows, at every point of its commit

  /** The newest file that holds `k` is read through the newest reader that does. */
  lemma NewestBoth(st: Store, f: File, k: Key)
    requires Numbered(st) && Twins(st) && Newest(st.disk, k, f)
    ensures Newest(Reload(st.disk, st.open), k, Opened(f, st.open))
    ensures Opened(f, st.open).layer[k] == f.layer[k]
  {
    var r := Reload(st.disk, st.open);
    ReloadDescending(st.disk, st.open);
    var y := SeenThrough(st, f, k);
    var h := NewestOf(r, k, 0);
    var x := ReloadFrom(st.disk, st.open, h.value);
    NewestAgrees(st, x, h.value, k);
    SameFile(st.disk, x, f);
  }

  lemma RunReloaded(st: Store, g: File)
    requires Numbered(st) && st.job.Job? && Named(st.job) && PartialOk(st) && g in st.job.inputs
    ensures g in Reload(st.disk, st.open)
    ensures forall f | f in st.disk && f.number == g.number :: Opened(f, st.open) == g
  {
    assert g.number in st.job.nums;
    ListedKept(st.disk, st.open, g);
    forall x | x in st.disk && x.number == g.number ensures Opened(x, st.open) == g {
      OpenedReader(st.open, x, g);
    }
  }

  /** If the newest file with `k` is one of the run, the run gives what it holds. */
  lemma RunHolds(st: Store, f: File, k: Key)
    requires Good(st) && st.job.Job? && !st.job.full && Newest(st.disk, k, f) && f.number in st.job.nums
    ensures Find(Layers(st.job.inputs), 0, k) == Some(f.layer[k])
  {
    var g := FileOf(st.job.inputs, f.number);
    NewestBoth(st, f, k);
    RunReloaded(st, g);
    forall h | h in st.job.inputs && h.number > g.number ensures k !in h.layer {
      RunReloaded(st, h);
    }
    NewestFound(st.job.inputs, k, g);
  }

  /** If it is below the run, the run does not hold `k`. */
  lemma RunLacks(st: Store, f: File, k: Key)
    requires Good(st) && st.job.Job? && !st.job.full && Newest(st.disk, k, f) && f.number < st.job.target
    ensures Find(Layers(st.job.inputs), 0, k) == None
  {
    NewestBoth(st, f, k);
    forall g | g in st.job.inputs ensures k !in g.layer {
      MemberLacks(st, f, k, g);
    }
    NothingFound(st.job.inputs, k);
  }

  lemma MemberLacks(st: Store, f: File, k: Key, g: File)
    requires Numbered(st) && st.job.Job? && Named(st.job) && PartialOk(st) && g in st.job.inputs
    requires f.number < st.job.target && Newest(Reload(st.disk, st.open), k, Opened(f, st.open))
    ensures k !in g.layer
  {
    RunReloaded(st, g);
    RunAtLeast(st.job.inputs, g);
    assert g.number > Opened(f, st.open).number;
  }

  lemma RunAtLeast(run: seq<File>, g: File)
    requires Descending(run) && g in run
    ensures g.number >= run[|run| - 1].number
  {
    var i :| 0 <= i < |run| && run[i] == g;
  }

  /** A reader that holds `k` while no file does: a tombstone, the oldest of all. */
  lemma BottomReader(st: Store, g: File, k: Key)
    requires Numbered(st) && Twins(st) && Nowhere(st.disk, k) && g in Reload(st.disk, st.open) && k in g.layer
    ensures g.layer[k] == Tombstone && Oldest(st.disk, g.number)
  {
    var r := Reload(st.disk, st.open);
    ReloadDescending(st.disk, st.open);
    var h := NewestOf(r, k, 0);
    var f := ReloadFrom(st.disk, st.open, h.value);
    NewestAgrees(st, f, h.value, k);
    var x := ReloadFrom(st.disk, st.open, g);
    SameFile(r, g, h.value);
  }

  /** If no file holds `k`, the run has at most a tombstone, with nothing below. */
  lemma RunEmpty(st: Store, k: Key)
    requires Good(st) && st.job.Job? && !st.job.full && Nowhere(st.disk, k)
    ensures var e := Find(Layers(st.job.inputs), 0, k); e == None || (e == Some(Tombstone) && st.job.drop)
  {
    var run := st.job.inputs;
    var g := NewestOf(run, k, 0);
    if g.None? {
      NothingFound(run, k);
    } else {
      NewestFound(run, k, g.value);
      RunReloaded(st, g.value);
      BottomReader(st, g.value, k);
      BottomIsTarget(st, g.value);
    }
  }

  lemma BottomIsTarget(st: Store, g: File)
    requires Numbered(st) && st.job.Job? && Named(st.job) && PartialOk(st) && g in st.job.inputs && Oldest(st.disk, g.number)
    ensures st.job.drop
  {
    RunAtLeast(st.job.inputs, g);
  }

  lemma PartialGone(st: Store, left: nat, g: File, n: nat)
    requires Good(st) && st.job.Job? && !st.job.full && left <= |st.job.inputs|
    requires g in st.disk && g.number !in Gone(st.job, left) && g.number > st.job.target
    requires n in Gone(st.job, left) || n == st.job.target
    ensures n < g.number
  {
    if n in Gone(st.job, left) {
      var h := GoneInput(st.job, left, n);
      if g.number in st.job.nums { GoneOlder(st.job, left, n, g.number); }
    }
  }

  /** The newest file with `k` has been unlinked or replaced: the output has what it held. */
  lemma PartialReplaced(st: Store, left: nat, k: Key, f: File)
    requires Good(st) && st.job.Job? && !st.job.full && left <= |st.job.inputs|
    requires Newest(st.disk, k, f) && (f.number in Gone(st.job, left) || f.number == st.job.target)
    ensures View(Layers(Committing(st, left)), k) == Visible(Some(f.layer[k]))
  {
    var disk, z := Committing(st, left), Output(st.job);
    InRun(st, left, f.number);
    RunHolds(st, f, k);
    OutputGet(st.job, k);
    forall g | g in disk && g.number > z.number ensures k !in g.layer {
      PartialGone(st, left, g, f.number);
    }
    if k in z.layer {
      assert z in disk;
      NewestFound(disk, k, z);
    } else {
      forall g | g in disk ensures k !in g.layer {
        if g.number <= z.number { SameFile(disk, g, z); }
      }
      NothingFound(disk, k);
    }
  }

  lemma InRun(st: Store, left: nat, n: nat)
    requires st.job.Job? && Named(st.job) && PartialOk(st) && left <= |st.job.inputs|
    requires n in Gone(st.job, left) || n == st.job.target
    ensures n in st.job.nums
  {
    if n == st.job.target {
      assert st.job.inputs[|st.job.inputs| - 1] in st.job.inputs;
    } else {
      var g := GoneInput(st.job, left, n);
    }
  }

  /** It is still there. */
  lemma PartialStays(st: Store, left: nat, k: Key, f: File)
    requires Good(st) && st.job.Job? && !st.job.full && left <= |st.job.inputs|
    requires Newest(st.disk, k, f) && f.number !in Gone(st.job, left) && f.number != st.job.target
    ensures View(Layers(Committing(st, left)), k) == Visible(Some(f.layer[k]))
  {
    var disk, z := Committing(st, left), Output(st.job);
    if f.number < z.number {
      RunLacks(st, f, k);
      OutputGet(st.job, k);
    }
    assert f in disk;
    NewestFound(disk, k, f);
  }

  /** At every point of the commit of a partial compaction the files show what they showed. */
  lemma PartialView(st: Store, left: nat, k: Key)
    requires Good(st) && st.job.Job? && !st.job.full && left <= |st.job.inputs|
    ensures View(Layers(Committing(st, left)), k) == Durable(st, k)
  {
    var disk := Committing(st, left);
    var f := NewestOf(st.disk, k, 0);
    if f.Some? {
      NewestFound(st.disk, k, f.value);
      if f.value.number in Gone(st.job, left) || f.value.number == st.job.target {
        PartialReplaced(st, left, k, f.value);
      } else {
        PartialStays(st, left, k, f.value);
      }
    } else {
      RunEmpty(st, k);
      OutputGet(st.job, k);
      NothingFound(disk, k);
      NothingFound(st.disk, k);
    }
  }

  // ----- Every clean step keeps the invariant

  /** The readers after a reload: kept ones, or the files themselves. */
  lemma Reloaded(disk: seq<File>, open: seq<File>, f: File, g: File)
    requires Descending(disk) && f in disk && g in Reload(disk, open) && f.number == g.number
    ensures g == f || g in open
  {
    var x := ReloadFrom(disk, open, g);
    SameFile(disk, x, f);
  }

  lemma ReloadNums(disk: seq<File>, open: seq<File>)
    ensures Nums(Reload(disk, open)) == Nums(disk)
  {
    var r := Reload(disk, open);
    forall g | g in r ensures g.number in Nums(disk) { var f := ReloadFrom(disk, open, g); }
    forall f | f in disk ensures f.number in Nums(r) { ReloadHas(disk, open, f); }
  }

  /** A pair that agreed still does, if what shaded it is still there. */
  lemma AgreesStill(st: Store, r: Store, f: File, g: File)
    requires TwinOk(st, f, g)
    requires forall k: Key | Shaded(st, g.number, k) :: Shaded(r, g.number, k)
    requires Oldest(st.disk, f.number) ==> Oldest(r.disk, f.number)
    ensures TwinOk(r, f, g)
  {
    forall k: Key ensures Agrees(r, f, g, k) {
      assert Agrees(st, f, g, k);
    }
  }

  lemma SelfTwin(st: Store, f: File)
    ensures TwinOk(st, f, f)
  {
  }

  // ----- Reloading

  /** What shades a pair survives a reload. */
  lemma ShadeRefreshed(st: Store, n: nat, k: Key)
    requires Numbered(st) && Shaded(st, n, k)
    ensures Shaded(Refreshed(st), n, k)
  {
    var h :| h in st.open && h.number > n && k in h.layer && h.number in Nums(st.disk);
    var f := FileOf(st.disk, h.number);
    OpenedReader(st.open, f, h);
    ReloadHas(st.disk, st.open, f);
  }

  lemma RefreshNumbered(st: Store)
    requires Numbered(st)
    ensures Numbered(Refreshed(st))
  {
    ReloadDescending(st.disk, st.open);
    forall g | g in Refreshed(st).open ensures g.number < st.next { var f := ReloadFrom(st.disk, st.open, g); }
  }

  lemma RefreshTwins(st: Store)
    requires Numbered(st) && Twins(st)
    ensures Twins(Refreshed(st))
  {
    var r := Refreshed(st);
    forall f, g | f in r.disk && g in r.open && f.number == g.number ensures TwinOk(r, f, g) {
      Reloaded(st.disk, st.open, f, g);
      if f == g {
        SelfTwin(r, f);
      } else {
        forall k: Key | Shaded(st, g.number, k) ensures Shaded(r, g.number, k) { ShadeRefreshed(st, g.number, k); }
        AgreesStill(st, r, f, g);
      }
    }
  }

  /** One more file, newer than all. */
  lemma NewerMore(f: File, disk: seq<File>, inputs: seq<File>, nums: set<nat>)
    requires NewerThan(disk, inputs, nums) && forall g | g in inputs :: g.number < f.number
    ensures NewerThan([f] + disk, inputs, nums)
  {
  }

  lemma NewerReloaded(disk: seq<File>, open: seq<File>, inputs: seq<File>, nums: set<nat>)
    requires NewerThan(disk, inputs, nums)
    ensures NewerThan(Reload(disk, open), inputs, nums)
  {
    forall f, g | f in Reload(disk, open) && g in inputs && f.number !in nums ensures f.number > g.number {
      var x := ReloadFrom(disk, open, f);
    }
  }

  lemma ExactReloaded(disk: seq<File>, open: seq<File>, nums: set<nat>)
    requires Descending(disk) && ExactBut(disk, open, nums)
    ensures ExactBut(disk, Reload(disk, open), nums)
  {
    forall f, g | f in disk && g in Reload(disk, open) && f.number == g.number && f.number !in nums ensures f == g {
      Reloaded(disk, open, f, g);
    }
  }

  lemma ExactMore(f: File, disk: seq<File>, open: seq<File>, nums: set<nat>)
    requires ExactBut(disk, open, nums) && f.number !in Nums(open)
    ensures ExactBut([f] + disk, open, nums)
  {
  }

  lemma MoreNums(st: Store, l: Layer)
    requires Numbered(st)
    ensures Nums([File(st.next, l)] + st.disk) == {st.next} + Nums(st.disk)
    ensures st.next !in Nums(st.open)
  {
  }

  lemma ApartLanded(f: File, disk: seq<File>, open: seq<File>, inputs: seq<File>, nums: set<nat>)
    requires FullApart(disk, open, inputs, nums) && f.number !in Nums(open)
    requires forall g | g in inputs :: g.number < f.number
    ensures FullApart([f] + disk, open, inputs, nums)
  {
    NewerMore(f, disk, inputs, nums);
    ExactMore(f, disk, open, nums);
  }

  lemma ApartReloaded(disk: seq<File>, open: seq<File>, inputs: seq<File>, nums: set<nat>)
    requires Descending(disk) && FullApart(disk, open, inputs, nums)
    ensures FullApart(disk, Reload(disk, open), inputs, nums)
  {
    NewerReloaded(disk, open, inputs, nums);
    ExactReloaded(disk, open, nums);
  }

  lemma LandFull(st: Store, l: Layer)
    requires Numbered(st) && st.job.Job? && Named(st.job) && FullOk(st)
    ensures FullOk(Landed(st, l))
  {
    MoreNums(st, l);
    assert st.next !in st.job.nums;
    ApartLanded(File(st.next, l), st.disk, st.open, st.job.inputs, st.job.nums);
  }

  lemma RefreshFull(st: Store)
    requires Numbered(st) && st.job.Job? && FullOk(st)
    ensures FullOk(Refreshed(st))
  {
    ReloadNums(st.disk, st.open);
    ApartReloaded(st.disk, st.open, st.job.inputs, st.job.nums);
  }

  lemma ListedReloaded(run: seq<File>, nums: set<nat>, disk: seq<File>, open: seq<File>)
    requires Descending(open) && Listed(run, nums, disk, open) && nums == Nums(run)
    ensures Listed(run, nums, disk, Reload(disk, open))
  {
    forall g | g in run ensures g in Reload(disk, open) {
      assert g.number in nums;
      ListedKept(disk, open, g);
    }
  }

  lemma ApartMore(f: File, disk: seq<File>, run: seq<File>, nums: set<nat>, target: nat)
    requires Apart(disk, run, nums, target) && forall g | g in run :: g.number < f.number
    ensures Apart([f] + disk, run, nums, target)
  {
  }

  lemma OldestMore(f: File, disk: seq<File>, n: nat)
    requires n <= f.number
    ensures Oldest([f] + disk, n) <==> Oldest(disk, n)
  {
    if Oldest([f] + disk, n) {
      assert forall x | x in disk :: x in [f] + disk;
    }
  }

  lemma RunLanded(f: File, disk: seq<File>, open: seq<File>, run: seq<File>, nums: set<nat>, target: nat, drop: bool)
    requires RunOk(disk, open, run, nums, target, drop) && target <= f.number
    requires forall g | g in run :: g.number < f.number
    ensures RunOk([f] + disk, open, run, nums, target, drop)
  {
    ApartMore(f, disk, run, nums, target);
    OldestMore(f, disk, target);
    assert Nums([f] + disk) == {f.number} + Nums(disk);
  }

  lemma RunBelow(st: Store)
    requires Numbered(st) && st.job.Job? && PartialOk(st)
    ensures st.job.target < st.next && forall g | g in st.job.inputs :: g.number < st.next
  {
    var run := st.job.inputs;
    assert run[|run| - 1] in run;
    forall g | g in run ensures g.number < st.next { assert g in st.open; }
  }

  lemma LandPartial(st: Store, l: Layer)
    requires Numbered(st) && st.job.Job? && PartialOk(st)
    ensures PartialOk(Landed(st, l))
  {
    RunBelow(st);
    RunLanded(File(st.next, l), st.disk, st.open, st.job.inputs, st.job.nums, st.job.target, st.job.drop);
  }

  lemma RunRefreshed(disk: seq<File>, open: seq<File>, run: seq<File>, nums: set<nat>, target: nat, drop: bool)
    requires Descending(open) && RunOk(disk, open, run, nums, target, drop) && nums == Nums(run)
    ensures RunOk(disk, Reload(disk, open), run, nums, target, drop)
  {
    ListedReloaded(run, nums, disk, open);
  }

  lemma PartialWith(st: Store, open: seq<File>)
    requires st.job.Job? && st.job.inputs != [] && st.job.target == st.job.inputs[|st.job.inputs| - 1].number
    requires RunOk(st.disk, open, st.job.inputs, st.job.nums, st.job.target, st.job.drop)
    ensures PartialOk(st.(open := open))
  {
  }

  lemma RefreshPartial(st: Store)
    requires Numbered(st) && st.job.Job? && PartialOk(st) && Named(st.job)
    ensures PartialOk(Refreshed(st))
  {
    RunRefreshed(st.disk, st.open, st.job.inputs, st.job.nums, st.job.target, st.job.drop);
    PartialWith(st, Reload(st.disk, st.open));
  }

  lemma RefreshKeeps(st: Store)
    requires Good(st)
    ensures Good(Refreshed(st))
  {
    RefreshNumbered(st);
    RefreshTwins(st);
    if st.job.Job? {
      if st.job.full { RefreshFull(st); } else { RefreshPartial(st); }
    }
  }

  lemma LandTwins(st: Store, l: Layer)
    requires Numbered(st) && Twins(st)
    ensures Twins(Landed(st, l))
  {
    var r := Landed(st, l);
    assert Nums(r.disk) == {st.next} + Nums(st.disk);
    forall f, g | f in r.disk && g in r.open && f.number == g.number ensures TwinOk(r, f, g) {
      assert f in st.disk;
      AgreesStill(st, r, f, g);
    }
  }

  lemma LandKeeps(st: Store, l: Layer)
    requires Good(st)
    ensures Good(Landed(st, l))
  {
    LandTwins(st, l);
    if st.job.Job? {
      if st.job.full { LandFull(st, l); } else { LandPartial(st, l); }
    }
  }

  lemma StartFullKeeps(st: Store)
    requires Good(st) && Can(st, StartFull) && Ahead(st)
    ensures Good(After(st, StartFull))
  {
    SameTwins(st, After(st, StartFull));
  }

  lemma SliceAt(open: seq<File>, i: nat, j: nat, f: File)
    requires Descending(open) && i < j < |open| && f in open && f !in open[i..j + 1]
    ensures f.number > open[i].number || f.number < open[j].number
  {
    var n :| 0 <= n < |open| && open[n] == f;
    if i <= n <= j { SliceHas(open, i, j, n); }
  }

  lemma SliceHas(open: seq<File>, i: nat, j: nat, n: nat)
    requires i <= n <= j < |open|
    ensures open[n] in open[i..j + 1]
  {
    assert open[i..j + 1][n - i] == open[n];
  }

  lemma StartApart(st: Store, i: nat, j: nat)
    requires Numbered(st) && Ahead(st) && i < j < |st.open|
    ensures Apart(st.disk, st.open[i..j + 1], Nums(st.open[i..j + 1]), st.open[j].number)
  {
    var run := st.open[i..j + 1];
    forall f, g | f in st.disk && g in run && f.number !in Nums(run)
      ensures f.number > g.number || f.number < st.open[j].number
    {
      var n :| 0 <= n < |run| && run[n] == g;
      assert g == st.open[i + n];
      if f.number in Nums(st.open) {
        var x := FileOf(st.open, f.number);
        SliceAt(st.open, i, j, x);
      }
    }
  }

  lemma StartRun(st: Store, i: nat, j: nat)
    requires Numbered(st) && i < j < |st.open| && Level(st)
    ensures RunOk(st.disk, st.open, st.open[i..j + 1], Nums(st.open[i..j + 1]), st.open[j].number, j == |st.open| - 1)
  {
    StartApart(st, i, j);
    StartPartialDrop(st, j);
    StartListed(st.disk, st.open, i, j);
  }

  lemma StartPartialJob(st: Store, i: nat, j: nat)
    requires Numbered(st) && Can(st, StartPartial(i, j)) && Level(st)
    ensures PartialOk(st.(job := RunJob(st.open, i, j)))
  {
    StartRun(st, i, j);
    assert st.open[i..j + 1][j - i] == st.open[j];
  }

  lemma StartListed(disk: seq<File>, open: seq<File>, i: nat, j: nat)
    requires Nums(open) <= Nums(disk) && i < j < |open|
    ensures Listed(open[i..j + 1], Nums(open[i..j + 1]), disk, open)
  {
    forall n | n in Nums(open[i..j + 1]) ensures n in Nums(disk) {
      assert n in Nums(open);
    }
  }

  lemma StartPartialDrop(st: Store, j: nat)
    requires Numbered(st) && Level(st) && j < |st.open|
    ensures j == |st.open| - 1 <==> Oldest(st.disk, st.open[j].number)
  {
    var last := st.open[|st.open| - 1];
    assert last in st.open && last.number in Nums(st.open);
    if j == |st.open| - 1 {
      forall x | x in st.disk ensures last.number <= x.number {
        if x.number in Nums(st.open) {
          var g := FileOf(st.open, x.number);
          RunAtLeast(st.open, g);
        }
      }
    } else {
      assert last.number in Nums(st.disk);
      var f := FileOf(st.disk, last.number);
    }
  }

  lemma SliceDescending(open: seq<File>, i: nat, j: nat)
    requires Descending(open) && i < j < |open|
    ensures Descending(open[i..j + 1])
  {
  }

  lemma StartPartialKeeps(st: Store, i: nat, j: nat)
    requires Good(st) && Can(st, StartPartial(i, j)) && Level(st)
    ensures Good(st.(job := RunJob(st.open, i, j)))
  {
    var r := st.(job := RunJob(st.open, i, j));
    assert JobOk(r) by {
      SliceDescending(st.open, i, j);
      StartPartialJob(st, i, j);
    }
    SameTwins(st, r);
  }

  // ----- Committing

  lemma AbortedNumbered(st: Store, left: nat)
    requires Numbered(st) && st.job.Job? && left <= |st.job.inputs| && st.job.target < st.next
    ensures Numbered(Aborted(st, left))
  {
  }

  lemma FullShade(st: Store, left: nat, f: File, g: File, k: Key)
    requires Good(st) && st.job.Job? && st.job.full && left <= |st.job.inputs|
    requires f in Committing(st, left) && f in st.disk && g.number == f.number && Shaded(st, g.number, k)
    ensures Shaded(Aborted(st, left), g.number, k)
  {
    var h :| h in st.open && h.number > g.number && k in h.layer && h.number in Nums(st.disk);
    if h.number in Gone(st.job, left) { FullGone(st, left, f, h.number); }
    var x := FileOf(st.disk, h.number);
    assert x in Committing(st, left);
  }

  lemma AbortFullTwin(st: Store, left: nat, f: File, g: File)
    requires Good(st) && st.job.Job? && st.job.full && left <= |st.job.inputs|
    requires f in Committing(st, left) && g in st.open && f.number == g.number
    ensures TwinOk(Aborted(st, left), f, g)
  {
    assert g.number in Nums(st.open);
    if f.number in st.job.nums {
      forall k: Key | Shaded(st, g.number, k) ensures Shaded(Aborted(st, left), g.number, k) {
        FullShade(st, left, f, g, k);
      }
      AgreesStill(st, Aborted(st, left), f, g);
    } else {
      SelfTwin(Aborted(st, left), f);
    }
  }

  lemma AbortFullKeeps(st: Store, left: nat)
    requires Good(st) && st.job.Job? && st.job.full && left <= |st.job.inputs|
    ensures Good(Aborted(st, left))
  {
    var r := Aborted(st, left);
    AbortedNumbered(st, left);
    forall f, g | f in r.disk && g in r.open && f.number == g.number ensures TwinOk(r, f, g) {
      AbortFullTwin(st, left, f, g);
    }
  }

  lemma CommitFullKeeps(st: Store)
    requires Good(st) && st.job.Job? && st.job.full
    ensures Good(Committed(st))
  {
    AbortFullKeeps(st, 0);
    RefreshKeeps(Aborted(st, 0));
    assert Committed(st) == Refreshed(Aborted(st, 0));
  }

  /** What the newer members of the run do not hold, the run has from its oldest. */
  lemma RunFromOldest(run: seq<File>, g: File, k: Key)
    requires Descending(run) && g in run && g.number == run[|run| - 1].number
    requires forall h | h in run && h.number > g.number :: k !in h.layer
    ensures Find(Layers(run), 0, k) == Get(g.layer, k)
  {
    if k in g.layer {
      NewestFound(run, k, g);
    } else {
      forall h | h in run ensures k !in h.layer {
        RunAtLeast(run, h);
        if h.number == g.number { SameFile(run, h, g); }
      }
      NothingFound(run, k);
    }
  }

  lemma NotShaded(st: Store, g: File, h: File, k: Key)
    requires st.job.Job? && Named(st.job) && PartialOk(st) && !Shaded(st, g.number, k)
    requires h in st.job.inputs && h.number > g.number
    ensures k !in h.layer
  {
    assert h in st.open && h.number in st.job.nums;
  }

  /** Reader of the oldest member and output: they differ only where newer members decide, or in
      tombstones with nothing below. */
  lemma OutputTwin(st: Store, g: File, k: Key)
    requires Good(st) && st.job.Job? && !st.job.full && g in st.job.inputs && g.number == st.job.target
    ensures Agrees(st, Output(st.job), g, k)
  {
    if !Shaded(st, g.number, k) {
      forall h | h in st.job.inputs && h.number > g.number ensures k !in h.layer { NotShaded(st, g, h, k); }
      RunFromOldest(st.job.inputs, g, k);
      OutputGet(st.job, k);
    }
  }

  lemma PartialNums(st: Store, left: nat)
    requires Numbered(st) && st.job.Job? && Named(st.job) && PartialOk(st) && left <= |st.job.inputs|
    ensures Nums(Committing(st, left)) == Nums(st.disk) - Gone(st.job, left)
  {
    var disk, run := Committing(st, left), st.job.inputs;
    assert run[|run| - 1] in run;
    forall n | n in Nums(st.disk) - Gone(st.job, left) ensures n in Nums(disk) {
      var f := FileOf(st.disk, n);
      if n == st.job.target { assert Output(st.job) in disk; } else { assert f in disk; }
    }
  }

  lemma AbortPartialTwin(st: Store, left: nat, f: File, g: File)
    requires Good(st) && st.job.Job? && !st.job.full && left <= |st.job.inputs| && Gone(st.job, left) == {}
    requires f in Committing(st, left) && g in st.open && f.number == g.number
    ensures TwinOk(Aborted(st, left), f, g)
  {
    var r, run := Aborted(st, left), st.job.inputs;
    PartialNums(st, left);
    if f.number == st.job.target {
      SameFile(Committing(st, left), f, Output(st.job));
      assert run[|run| - 1] in run;
      SameFile(st.open, g, run[|run| - 1]);
      forall k: Key ensures Agrees(st, f, g, k) { OutputTwin(st, g, k); }
    }
    OldestSame(st.disk, r.disk, f.number);
    AgreesStill(st, r, f, g);
  }

  lemma OldestSame(a: seq<File>, b: seq<File>, n: nat)
    requires Nums(b) <= Nums(a)
    ensures Oldest(a, n) ==> Oldest(b, n)
  {
    if Oldest(a, n) {
      forall x | x in b ensures n <= x.number {
        assert x.number in Nums(b);
      }
    }
  }

  lemma AbortPartialKeeps(st: Store, left: nat)
    requires Good(st) && st.job.Job? && !st.job.full && left <= |st.job.inputs| && Gone(st.job, left) == {}
    ensures Good(Aborted(st, left))
  {
    var r := Aborted(st, left);
    RunBelow(st);
    AbortedNumbered(st, left);
    forall f, g | f in r.disk && g in r.open && f.number == g.number ensures TwinOk(r, f, g) {
      AbortPartialTwin(st, left, f, g);
    }
  }

  /** What a run member shaded, the output shades. */
  lemma OutputShades(st: Store, f: File, h: File, k: Key)
    requires Good(st) && st.job.Job? && !st.job.full && f in st.disk && f.number !in st.job.nums
    requires h in st.job.inputs && h.number > f.number && k in h.layer
    ensures f.number < st.job.target && k in Output(st.job).layer
  {
    OutputGet(st.job, k);
    var g := NewestOf(st.job.inputs, k, 0);
    NewestFound(st.job.inputs, k, g.value);
  }

  lemma ShadeByRun(st: Store, f: File, h: File, k: Key)
    requires Good(st) && st.job.Job? && !st.job.full && f in st.disk && f.number !in st.job.nums
    requires h in st.open && h.number > f.number && k in h.layer && h.number in st.job.nums
    ensures Shaded(Committed(st), f.number, k)
  {
    var x := FileOf(st.job.inputs, h.number);
    SameFile(st.open, x, h);
    OutputShades(st, f, h, k);
    ShadeByOutput(st, f.number, k);
  }

  lemma ShadeByOutput(st: Store, n: nat, k: Key)
    requires Good(st) && st.job.Job? && !st.job.full && n < st.job.target && k in Output(st.job).layer
    ensures Shaded(Committed(st), n, k)
  {
    LastInRun(st.job);
    OutputListed(st);
  }

  lemma ShadeByKept(st: Store, n: nat, h: File, k: Key)
    requires Good(st) && st.job.Job? && !st.job.full
    requires h in st.open && h.number > n && k in h.layer && h.number in Nums(st.disk) && h.number !in st.job.nums
    ensures Shaded(Committed(st), n, k)
  {
    PartialNums(st, 0);
    NotGone(st.job, h.number);
    KeptListed(st, h);
  }

  lemma CommitShade(st: Store, f: File, g: File, k: Key)
    requires Good(st) && st.job.Job? && !st.job.full
    requires f in st.disk && f.number == g.number && g.number !in st.job.nums && Shaded(st, g.number, k)
    ensures Shaded(Committed(st), g.number, k)
  {
    var h :| h in st.open && h.number > g.number && k in h.layer && h.number in Nums(st.disk);
    if h.number in st.job.nums { ShadeByRun(st, f, h, k); } else { ShadeByKept(st, g.number, h, k); }
  }

  lemma ListedNew(disk: seq<File>, open: seq<File>, z: File)
    requires z in disk && z.number !in Nums(open)
    ensures z in Reload(disk, open)
  {
    assert forall i | 0 <= i < |open| :: open[i] in open && open[i].number in Nums(open);
    ReloadHas(disk, open, z);
  }

  lemma ListedKept(disk: seq<File>, open: seq<File>, h: File)
    requires Descending(open) && h in open && h.number in Nums(disk)
    ensures h in Reload(disk, open)
  {
    var f := FileOf(disk, h.number);
    OpenedReader(open, f, h);
    ReloadHas(disk, open, f);
  }

  lemma LastInRun(job: Job)
    requires job.Job? && Named(job) && job.inputs != [] && job.target == job.inputs[|job.inputs| - 1].number
    ensures job.target in job.nums
  {
    assert job.inputs[|job.inputs| - 1] in job.inputs;
  }

  lemma OutputListed(st: Store)
    requires st.job.Job? && !st.job.full && st.job.target in st.job.nums
    ensures Output(st.job) in Committed(st).open && st.job.target in Nums(Committed(st).disk)
  {
    var disk, kept, z := Committing(st, 0), Kept(st), Output(st.job);
    assert z in disk && z.number !in Nums(kept);
    ListedNew(disk, kept, z);
  }

  lemma KeptListed(st: Store, h: File)
    requires Descending(st.open) && st.job.Job? && !st.job.full
    requires h in st.open && h.number in Nums(Committing(st, 0)) && h.number !in st.job.nums
    ensures h in Committed(st).open && h.number in Nums(Committed(st).disk)
  {
    ListedKept(Committing(st, 0), Kept(st), h);
  }

  lemma NotGone(job: Job, n: nat)
    requires job.Job? && Named(job) && job.inputs != [] && job.target == job.inputs[|job.inputs| - 1].number
    requires n !in job.nums
    ensures n !in Gone(job, 0) && n != job.target
  {
    LastInRun(job);
    assert job.inputs[0..] == job.inputs;
  }

  lemma KeptTwin(st: Store, f: File, g: File)
    requires Good(st) && st.job.Job? && !st.job.full && f in st.disk && g in st.open
    requires f.number == g.number && g.number !in st.job.nums
    ensures TwinOk(Committed(st), f, g)
  {
    var r := Committed(st);
    forall k: Key | Shaded(st, g.number, k) ensures Shaded(r, g.number, k) { CommitShade(st, f, g, k); }
    PartialNums(st, 0);
    OldestSame(st.disk, r.disk, f.number);
    AgreesStill(st, r, f, g);
  }

  lemma CommitPartialTwin(st: Store, f: File, g: File)
    requires Good(st) && st.job.Job? && !st.job.full
    requires f in Committing(st, 0) && g in Committed(st).open && f.number == g.number
    ensures TwinOk(Committed(st), f, g)
  {
    Reloaded(Committing(st, 0), Kept(st), f, g);
    if f == g {
      SelfTwin(Committed(st), f);
    } else {
      NotGone(st.job, g.number);
      KeptTwin(st, f, g);
    }
  }

  lemma CommitPartialKeeps(st: Store)
    requires Good(st) && st.job.Job? && !st.job.full
    ensures Good(Committed(st))
  {
    var r := Committed(st);
    RunBelow(st);
    AbortedNumbered(st, 0);
    RefreshNumbered(Aborted(st, 0).(open := Kept(st)));
    assert r == Refreshed(Aborted(st, 0).(open := Kept(st)));
    forall f, g | f in r.disk && g in r.open && f.number == g.number ensures TwinOk(r, f, g) {
      CommitPartialTwin(st, f, g);
    }
  }

  /** Every clean step of flushes and compactions keeps the invariant. */
  lemma StepKeepsGood(st: Store, c: Change)
    requires Good(st) && Can(st, c) && Clean(st, c)
    ensures Good(After(st, c))
  {
    match c
    case Flush(l) => LandKeeps(st, l); RefreshKeeps(Landed(st, l));
    case Land(l) => LandKeeps(st, l);
    case Waste => WasteKeeps(st);
    case StartFull => StartFullKeeps(st);
    case StartPartial(i, j) => StartPartialKeeps(st, i, j);
    case GiveUp => GiveUpKeeps(st);
    case Commit => if st.job.full { CommitFullKeeps(st); } else { CommitPartialKeeps(st); }
    case Abort(left) => if st.job.full { AbortFullKeeps(st, left); } else { AbortPartialKeeps(st, left); }
  }

  lemma SameTwins(st: Store, r: Store)
    requires Twins(st) && r.disk == st.disk && r.open == st.open
    ensures Twins(r)
  {
    forall f, g | f in r.disk && g in r.open && f.number == g.number ensures TwinOk(r, f, g) {
      AgreesStill(st, r, f, g);
    }
  }

  lemma WasteKeeps(st: Store)
    requires Good(st)
    ensures Good(After(st, Waste))
  {
    SameTwins(st, After(st, Waste));
  }

  lemma GiveUpKeeps(st: Store)
    requires Good(st) && Can(st, GiveUp)
    ensures Good(After(st, GiveUp))
  {
    SameTwins(st, After(st, GiveUp));
  }

  // ----- What a step can come to show

  lemma ReloadTwice(disk: seq<File>, open: seq<File>)
    requires Descending(disk)
    ensures Reload(disk, Reload(disk, open)) == Reload(disk, open)
  {
    var r := Reload(disk, open);
    ReloadDescending(disk, open);
    forall i | 0 <= i < |disk| ensures Reload(disk, r)[i] == r[i] {
      OpenedReader(r, disk[i], r[i]);
    }
  }

  /** A list that has just been reloaded shows what the files show. */
  lemma FreshList(st: Store, open: seq<File>, k: Key)
    requires Numbered(st) && Twins(st) && st.open == Reload(st.disk, open)
    ensures Live(st, k) == Durable(st, k)
  {
    ReloadTwice(st.disk, open);
    ReloadSees(st, k);
  }

  /** What a flush of `l` adds to what can be shown. */
  ghost predicate Shown(st: Store, l: Layer, k: Key, v: Option<Bytes>) {
    if k in l then v == Visible(Some(l[k])) else Shows(st, k, v)
  }

  lemma FlushShows(st: Store, l: Layer, k: Key, v: Option<Bytes>)
    requires Good(st) && Shows(After(st, Flush(l)), k, v)
    ensures Shown(st, l, k, v)
  {
    var r := Landed(st, l);
    LandKeeps(st, l);
    RefreshKeeps(r);
    FreshList(Refreshed(r), st.open, k);
    LandView(st, l, k);
    assert File(st.next, l) in r.disk;
  }

  lemma LandShows(st: Store, l: Layer, k: Key, v: Option<Bytes>)
    requires Good(st) && Shows(Landed(st, l), k, v)
    ensures Shows(st, k, v) || Shown(st, l, k, v)
  {
    LandView(st, l, k);
    assert File(st.next, l) in Landed(st, l).disk;
  }

  lemma CommitShows(st: Store, k: Key, v: Option<Bytes>)
    requires Good(st) && st.job.Job? && Shows(Committed(st), k, v)
    ensures Shows(st, k, v)
  {
    if st.job.full { CommitFullKeeps(st); FullView(st, 0, k); } else { CommitPartialKeeps(st); PartialView(st, 0, k); }
    FreshList(Committed(st), Kept(st), k);
  }

  lemma AbortShows(st: Store, left: nat, k: Key, v: Option<Bytes>)
    requires Good(st) && st.job.Job? && left <= |st.job.inputs| && Shows(Aborted(st, left), k, v)
    ensures Shows(st, k, v)
  {
    if st.job.full { FullView(st, left, k); } else { PartialView(st, left, k); }
  }

  /** A flush can add what it flushes; no other clean step shows anything new. */
  lemma StepShows(st: Store, c: Change, k: Key, v: Option<Bytes>)
    requires Good(st) && Can(st, c) && Clean(st, c) && Shows(After(st, c), k, v)
    ensures match c
            case Flush(l) => Shown(st, l, k, v)
            case Land(l) => Shows(st, k, v) || Shown(st, l, k, v)
            case _ => Shows(st, k, v)
  {
    match c
    case Flush(l) => FlushShows(st, l, k, v);
    case Land(l) => LandShows(st, l, k, v);
    case Commit => CommitShows(st, k, v);
    case Abort(left) => AbortShows(st, left, k, v);
    case _ =>
  }

  /** Nor does a crash, at any point of a commit. */
  lemma CrashShows(st: Store, disk: seq<File>, k: Key)
    requires Good(st) && CrashDisk(st, disk)
    ensures Shows(st, k, View(Layers(disk), k))
  {
    if disk != st.disk {
      var left :| 0 <= left <= |st.job.inputs| && disk == Committing(st, left);
      if st.job.full { FullView(st, left, k); } else { PartialView(st, left, k); }
    }
  }

  /** A store as it is opened. */
  function Opening(files: seq<File>, next: nat): (st: Store) {
    Store(files, files, next, NoJob)
  }

  lemma OpeningGood(files: seq<File>, next: nat)
    requires Descending(files) && forall f | f in files :: f.number < next
    ensures Good(Opening(files, next))
    ensures forall k: Key, v | Shows(Opening(files, next), k, v) :: v == View(Layers(files), k)
  {
    var st := Opening(files, next);
    forall f, g | f in st.disk && g in st.open && f.number == g.number ensures TwinOk(st, f, g) {
      SameFile(files, f, g);
      SelfTwin(st, f);
    }
  }

  // ----- Steps that are not clean

  /** Files in order are told by what they are. */
  lemma {:induction false} SameFiles(a: seq<File>, b: seq<File>)
    requires Descending(a) && Descending(b) && forall g :: g in a <==> g in b
    ensures a == b
  {
    if b != [] { FirstIn(b); }
    if a != [] {
      FirstIn(a);
      var i :| 0 <= i < |b| && b[i] == a[0];
      var j :| 0 <= j < |a| && a[j] == b[0];
      assert a[0] == b[0];
      TailFiles(a, b);
      SameFiles(a[1..], b[1..]);
    }
  }

  lemma FirstIn(a: seq<File>)
    requires a != []
    ensures a[0] in a
  {
  }

  lemma TailFiles(a: seq<File>, b: seq<File>)
    requires Descending(a) && Descending(b) && a != [] && b != [] && a[0] == b[0] && forall g :: g in a <==> g in b
    ensures forall g :: g in a[1..] <==> g in b[1..]
  {
    forall g ensures g in a[1..] <==> g in b[1..] {
      TailHas(a, g);
      TailHas(b, g);
    }
  }

  lemma TailHas(a: seq<File>, g: File)
    requires Descending(a) && a != []
    ensures g in a[1..] <==> g in a && g != a[0]
  {
    assert a == [a[0]] + a[1..];
  }

  /** The files that have no reader. */
  function Unlisted(st: Store): (fs: seq<File>) {
    Unlinked(st.disk, Nums(st.open))
  }

  /** A full compaction that nothing interrupts. */
  function Compacted(st: Store): (r: Store)
    requires st.job.NoJob?
  {
    Committed(After(st, StartFull))
  }

  lemma CompactedDisk(st: Store)
    requires Numbered(st) && st.job.NoJob?
    ensures Compacted(st).disk == [File(st.next, Merged(Layers(st.open), true))] + Unlisted(st)
  {
    var z := File(st.next, Merged(Layers(st.open), true));
    var j := After(st, StartFull);
    assert st.open[0..] == st.open;
    assert st.next !in Nums(st.open);
    assert Gone(j.job, 0) == Nums(st.open);
    RenamedOnTop(Unlisted(st), z);
  }

  lemma RenamedOnTop(disk: seq<File>, z: File)
    requires Descending(disk) && forall f | f in disk :: f.number < z.number
    ensures Renamed(disk, z) == [z] + disk
  {
    SameFiles(Renamed(disk, z), [z] + disk);
  }

  /** What a full compaction leaves, of any store: the live values of the list, and what files
      without a reader hold. */
  lemma CompactedView(st: Store, k: Key)
    requires Numbered(st) && st.job.NoJob?
    ensures Durable(Compacted(st), k) == if Live(st, k).Some? then Live(st, k) else View(Layers(Unlisted(st)), k)
  {
    var z := File(st.next, Merged(Layers(st.open), true));
    CompactedDisk(st);
    ViewCons(z, Unlisted(st), k);
    MergedFinds(Layers(st.open), true, k);
    FindOne(z.layer, k);
  }

  /** So it shows a value that the list does not, exactly when the list shows none and the files
      without a reader do; with a reader for every file, it makes what the list shows permanent. */
  lemma CompactedIff(st: Store, k: Key)
    requires Numbered(st) && st.job.NoJob?
    ensures Durable(Compacted(st), k) == Live(st, k) <==> Live(st, k).Some? || View(Layers(Unlisted(st)), k) == None
  {
    CompactedView(st, k);
  }

  lemma NoneLeft(disk: seq<File>, nums: set<nat>)
    requires Nums(disk) <= nums
    ensures Unlinked(disk, nums) == []
  {
    if Unlinked(disk, nums) != [] { FirstIn(Unlinked(disk, nums)); }
  }

  /** A value that is on disk, and that a list with a reader for every file does not show, is gone
      from disk after the next full compaction: it unlinks all files there are. */
  lemma LossBecomesPermanent(st: Store, k: Key, v: Bytes)
    requires Numbered(st) && st.job.NoJob? && Nums(st.disk) <= Nums(st.open)
    requires Durable(st, k) == Some(v) && Live(st, k) == None
    ensures Compacted(st).disk == [File(st.next, Merged(Layers(st.open), true))]
    ensures Durable(Compacted(st), k) == None
  {
    NoneLeft(st.disk, Nums(st.open));
    CompactedDisk(st);
    CompactedView(st, k);
    NothingFound([], k);
  }

  /** From a list that is not behind, it lists what it leaves. */
  lemma CompactedShows(st: Store, k: Key)
    requires Good(st) && st.job.NoJob? && Ahead(st)
    ensures Live(Compacted(st), k) == if Live(st, k).Some? then Live(st, k) else View(Layers(Unlisted(st)), k)
  {
    var s1 := After(st, StartFull);
    StartFullKeeps(st);
    CommitFullKeeps(s1);
    FreshList(Committed(s1), Kept(s1), k);
    CompactedView(st, k);
  }

  /** A partial compaction that nothing interrupts. */
  function Tiered(st: Store, i: nat, j: nat): (r: Store)
    requires i < j < |st.open|
  {
    Committed(st.(job := RunJob(st.open, i, j)))
  }

  /** From a list that is not behind, it lists what the files show. */
  lemma TieredShows(st: Store, i: nat, j: nat, k: Key)
    requires Good(st) && st.job.NoJob? && Level(st) && i < j < |st.open|
    ensures Live(Tiered(st, i, j), k) == Durable(st, k)
  {
    var s1 := st.(job := RunJob(st.open, i, j));
    StartPartialKeeps(st, i, j);
    CommitPartialKeeps(s1);
    PartialView(s1, 0, k);
    FreshList(Committed(s1), Kept(s1), k);
  }

  // ----- What the list can come to show

  /** By the commit of a compaction under way. */
  predicate ByCommit(st: Store, k: Key, v: Option<Bytes>) {
    st.job.Job? && v == Live(Committed(st), k)
  }

  /** By a partial compaction, which lists all files. */
  predicate ByRun(st: Store, k: Key, v: Option<Bytes>) {
    Level(st) && |st.open| >= 2 && v == Durable(st, k)
  }

  /** By a full compaction, which lists the files without a reader; they decide where the list
      shows nothing. */
  predicate ByFull(st: Store, k: Key, v: Option<Bytes>) {
    Ahead(st) && Live(st, k).None? && v == View(Layers(Unlisted(st)), k)
  }

  /** What the list shows of `k`, or clean compactions can make it show without a flush. */
  predicate Listable(st: Store, k: Key, v: Option<Bytes>) {
    v == Live(st, k) || ByCommit(st, k, v) || ByRun(st, k, v) || ByFull(st, k, v)
  }

  /** Above all readers, a file without one is the newest to hold `k`. */
  lemma UnlistedTop(st: Store, k: Key, f: File)
    requires Ahead(st) && Newest(Unlisted(st), k, f)
    ensures Newest(st.disk, k, f)
  {
    forall g | g in st.disk && g.number > f.number ensures k !in g.layer {
      if g.number in Nums(st.open) {
        var h := FileOf(st.open, g.number);
        assert false;
      }
      assert g in Unlisted(st);
    }
  }

  lemma FullIsShown(st: Store, k: Key, v: Option<Bytes>)
    requires Numbered(st) && ByFull(st, k, v)
    ensures v == Live(st, k) || v == Durable(st, k)
  {
    var f := NewestOf(Unlisted(st), k, 0);
    if f.Some? {
      UnlistedTop(st, k, f.value);
      NewestFound(Unlisted(st), k, f.value);
      NewestFound(st.disk, k, f.value);
    } else {
      NothingFound(Unlisted(st), k);
    }
  }

  /** A commit lists what it leaves on disk. */
  lemma CommitLists(st: Store, k: Key)
    requires Good(st) && st.job.Job?
    ensures Good(Committed(st)) && Live(Committed(st), k) == View(Layers(Committing(st, 0)), k)
  {
    if st.job.full { CommitFullKeeps(st); } else { CommitPartialKeeps(st); }
    FreshList(Committed(st), Kept(st), k);
  }

  lemma ListableShown(st: Store, k: Key, v: Option<Bytes>)
    requires Good(st) && Listable(st, k, v)
    ensures Shows(st, k, v)
  {
    if ByCommit(st, k, v) {
      CommitLists(st, k);
      CommitShows(st, k, v);
    } else if ByFull(st, k, v) {
      FullIsShown(st, k, v);
    }
  }

  /** The newest of all files decides. */
  lemma TopFound(fs: seq<File>, f: File, k: Key)
    requires Descending(fs) && f in fs && k in f.layer && forall g | g in fs :: g.number <= f.number
    ensures View(Layers(fs), k) == Visible(Some(f.layer[k]))
  {
    NewestFound(fs, k, f);
  }

  lemma CommitLanded(st: Store, l: Layer, k: Key)
    requires Good(st) && st.job.Job? && k in l
    ensures View(Layers(Committing(Landed(st, l), 0)), k) == Visible(Some(l[k]))
  {
    var r, f := Landed(st, l), File(st.next, l);
    LandKeeps(st, l);
    JobBelow(st);
    TopFound(Committing(r, 0), f, k);
  }

  /** Its numbers have been given out. */
  lemma JobBelow(st: Store)
    requires Good(st) && st.job.Job?
    ensures st.job.target < st.next && st.next !in Gone(st.job, 0)
  {
    if !st.job.full { RunBelow(st); }
    assert st.job.inputs[0..] == st.job.inputs;
    assert forall g | g in st.job.inputs :: g.number < st.next;
  }

  lemma LandLists(st: Store, l: Layer, k: Key, v: Option<Bytes>)
    requires Good(st) && k in l && Listable(Landed(st, l), k, v)
    ensures v == Live(st, k) || v == Visible(Some(l[k]))
  {
    var r, f := Landed(st, l), File(st.next, l);
    LandKeeps(st, l);
    if ByCommit(r, k, v) {
      CommitLists(r, k);
      CommitLanded(st, l, k);
    } else if ByRun(r, k, v) {
      TopFound(r.disk, f, k);
    } else if ByFull(r, k, v) {
      assert f in Unlisted(r);
      TopFound(Unlisted(r), f, k);
    }
  }

  /** More is left on disk at an earlier point of a commit. */
  lemma MoreLeft(st: Store, left: nat, g: File)
    requires st.job.Job? && left <= |st.job.inputs| && g in Committing(st, 0)
    ensures g in Committing(st, left)
  {
    assert st.job.inputs[0..] == st.job.inputs;
    assert forall x | x in st.job.inputs[left..] :: x in st.job.inputs;
    assert Gone(st.job, left) <= Gone(st.job, 0);
  }

  /** A file that holds `k` to the end of the commit decides at its end. */
  lemma LeftToEnd(st: Store, left: nat, k: Key, f: File)
    requires Good(st) && st.job.Job? && left <= |st.job.inputs|
    requires Newest(Committing(st, left), k, f) && f in Committing(st, 0)
    ensures ByCommit(st, k, View(Layers(Committing(st, left)), k))
  {
    forall g | g in Committing(st, 0) && g.number > f.number ensures k !in g.layer { MoreLeft(st, left, g); }
    CommitLists(st, k);
    NewestFound(Committing(st, 0), k, f);
    NewestFound(Committing(st, left), k, f);
  }

  lemma NoneToEnd(st: Store, left: nat, k: Key)
    requires Good(st) && st.job.Job? && left <= |st.job.inputs| && Nowhere(Committing(st, left), k)
    ensures ByCommit(st, k, View(Layers(Committing(st, left)), k))
  {
    forall g | g in Committing(st, 0) ensures k !in g.layer { MoreLeft(st, left, g); }
    CommitLists(st, k);
    NothingFound(Committing(st, 0), k);
    NothingFound(Committing(st, left), k);
  }

  /** What a full compaction leaves without a reader is there to the end. */
  lemma UnlistedLeft(st: Store, left: nat, h: File)
    requires Good(st) && st.job.Job? && st.job.full && left <= |st.job.inputs| && h in Unlisted(Aborted(st, left))
    ensures h in Committing(st, 0) && h.number !in st.job.nums
  {
    assert h in Committing(st, left) && st.job.target !in st.job.nums;
    if h != Output(st.job) { assert h.number in Nums(st.disk); }
    assert st.job.inputs[0..] == st.job.inputs;
  }

  /** Of files that a full compaction unlinks later, none without a reader is in front. */
  lemma GoneBelow(st: Store, left: nat, k: Key, f: File)
    requires Good(st) && st.job.Job? && st.job.full && left <= |st.job.inputs|
    requires Newest(Committing(st, left), k, f) && f !in Committing(st, 0)
    ensures Nowhere(Unlisted(Aborted(st, left)), k)
  {
    assert f.number in Gone(st.job, 0);
    var g := GoneInput(st.job, 0, f.number);
    forall h | h in Unlisted(Aborted(st, left)) ensures k !in h.layer {
      UnlistedLeft(st, left, h);
      assert h.number > g.number;
    }
  }

  /** With every reader's file there, and nothing of `k` without a reader, the list is exact. */
  lemma LevelShows(st: Store, k: Key)
    requires Numbered(st) && Twins(st) && Level(st) && Nowhere(Unlisted(st), k)
    ensures Live(st, k) == Durable(st, k)
  {
    var all := Reload(st.disk, st.open);
    ReloadDescending(st.disk, st.open);
    ReloadSees(st, k);
    var g := NewestOf(st.open, k, 0);
    if g.Some? {
      NewestFound(st.open, k, g.value);
      ListedKept(st.disk, st.open, g.value);
      forall h | h in all && h.number > g.value.number ensures k !in h.layer { ReloadedLacks(st, k, h); }
      NewestFound(all, k, g.value);
    } else {
      NothingFound(st.open, k);
      forall h | h in all ensures k !in h.layer { ReloadedLacks(st, k, h); }
      NothingFound(all, k);
    }
  }

  lemma ReloadedLacks(st: Store, k: Key, h: File)
    requires Descending(st.open) && h in Reload(st.disk, st.open) && Nowhere(Unlisted(st), k)
    requires h in st.open ==> k !in h.layer
    ensures k !in h.layer
  {
    var f := ReloadFrom(st.disk, st.open, h);
    if f.number in Nums(st.open) {
      var g := FileOf(st.open, f.number);
      OpenedReader(st.open, f, g);
    } else {
      assert f in Unlisted(st) && forall i | 0 <= i < |st.open| :: st.open[i] in st.open;
    }
  }

  lemma AbortFullLists(st: Store, left: nat, k: Key, v: Option<Bytes>)
    requires Good(st) && st.job.Job? && st.job.full && left <= |st.job.inputs| && Listable(Aborted(st, left), k, v)
    ensures Listable(st, k, v)
  {
    var r := Aborted(st, left);
    AbortFullKeeps(st, left);
    if ByRun(r, k, v) {
      var f := NewestOf(r.disk, k, 0);
      if f.None? {
        NoneToEnd(st, left, k);
      } else if f.value in Committing(st, 0) {
        LeftToEnd(st, left, k, f.value);
      } else {
        GoneBelow(st, left, k, f.value);
        LevelShows(r, k);
      }
    } else if ByFull(r, k, v) {
      var f := NewestOf(Unlisted(r), k, 0);
      if f.None? {
        NothingFound(Unlisted(r), k);
      } else {
        UnlistedTop(r, k, f.value);
        UnlistedLeft(st, left, f.value);
        NewestFound(Unlisted(r), k, f.value);
        NewestFound(r.disk, k, f.value);
        LeftToEnd(st, left, k, f.value);
      }
    }
  }

  lemma AbortPartialLists(st: Store, left: nat, k: Key, v: Option<Bytes>)
    requires Good(st) && st.job.Job? && !st.job.full && left <= |st.job.inputs| && Gone(st.job, left) == {}
    requires Listable(Aborted(st, left), k, v)
    ensures Listable(st, k, v)
  {
    AbortPartialKeeps(st, left);
    ListableShown(Aborted(st, left), k, v);
    PartialView(st, left, k);
    PartialView(st, 0, k);
    CommitLists(st, k);
  }

  lemma CommitOnlyLists(st: Store, k: Key, v: Option<Bytes>)
    requires Good(st) && st.job.Job? && Listable(Committed(st), k, v)
    ensures ByCommit(st, k, v)
  {
    CommitLists(st, k);
    ListableShown(Committed(st), k, v);
    FreshList(Committed(st), Kept(st), k);
  }

  lemma StartLists(st: Store, c: Change, k: Key, v: Option<Bytes>)
    requires Good(st) && Can(st, c) && Clean(st, c) && (c.StartFull? || c.StartPartial?) && Listable(After(st, c), k, v)
    ensures Listable(st, k, v)
  {
    if c.StartFull? { CompactedShows(st, k); } else { TieredShows(st, c.i, c.j, k); }
  }

  /** A clean step of a compaction lets the list come to show nothing new; nor does a flush that
      fails, but for what it has written. */
  lemma StepLists(st: Store, c: Change, k: Key, v: Option<Bytes>)
    requires Good(st) && Can(st, c) && Clean(st, c) && Listable(After(st, c), k, v)
    ensures match c
            case Flush(_) => true
            case Land(l) => k in l ==> v == Live(st, k) || v == Visible(Some(l[k]))
            case _ => Listable(st, k, v)
  {
    match c
    case Land(l) => if k in l { LandLists(st, l, k, v); }
    case StartFull => StartLists(st, c, k, v);
    case StartPartial(_, _) => StartLists(st, c, k, v);
    case Commit => CommitOnlyLists(st, k, v);
    case Abort(left) => if st.job.full { AbortFullLists(st, left, k, v); } else { AbortPartialLists(st, left, k, v); }
    case _ =>
  }

  lemma RunGone(open: seq<File>, i: nat, j: nat)
    requires i < j < |open|
    ensures Gone(RunJob(open, i, j), 0) == Nums(open[i..j + 1]) - {open[j].number}
    ensures open[j].number in Nums(open[i..j + 1])
  {
    var run := open[i..j + 1];
    assert run[0..] == run && run[j - i] == open[j];
  }

  /** The files `to` are those of `from` without the numbers `nums`, and `z`. */
  ghost predicate Replaces(to: seq<File>, from: seq<File>, nums: set<nat>, z: File) {
    Descending(to) && forall g :: g in to <==> g == z || (g in from && g.number !in nums)
  }

  lemma TieredDisk(st: Store, i: nat, j: nat)
    requires Descending(st.disk) && i < j < |st.open|
    ensures Replaces(Tiered(st, i, j).disk, st.disk, Nums(st.open[i..j + 1]), Output(RunJob(st.open, i, j)))
  {
    RunGone(st.open, i, j);
  }

  lemma Outranked(to: seq<File>, from: seq<File>, nums: set<nat>, z: File, x: File, k: Key)
    requires Replaces(to, from, nums, z) && x in from && k in x.layer && x.number !in nums && x.number > z.number
    requires forall f | f in from && f.number > x.number && f.number !in nums :: k !in f.layer
    ensures View(Layers(to), k) == Visible(Some(x.layer[k]))
  {
    assert x in to;
    NewestFound(to, k, x);
  }

  lemma Unrivalled(to: seq<File>, from: seq<File>, nums: set<nat>, z: File, k: Key)
    requires Replaces(to, from, nums, z) && k in z.layer
    requires forall f | f in from && f.number > z.number && f.number !in nums :: k !in f.layer
    ensures View(Layers(to), k) == Visible(Some(z.layer[k]))
  {
    assert z in to;
    NewestFound(to, k, z);
  }

  /** Of any store: a file that is not of the run, but newer than its oldest member, decides over
      all that the run held, newer or not. */
  lemma StragglerWins(st: Store, i: nat, j: nat, x: File, k: Key)
    requires Numbered(st) && i < j < |st.open| && x in st.disk && k in x.layer
    requires x.number !in Nums(st.open[i..j + 1]) && x.number > st.open[j].number
    requires forall f | f in st.disk && f.number > x.number && f.number !in Nums(st.open[i..j + 1]) :: k !in f.layer
    ensures Durable(Tiered(st, i, j), k) == Visible(Some(x.layer[k]))
  {
    TieredDisk(st, i, j);
    Outranked(Tiered(st, i, j).disk, st.disk, Nums(st.open[i..j + 1]), Output(RunJob(st.open, i, j)), x, k);
  }

  /** Of any store: what the readers of the run hold comes back, though their files are gone. */
  lemma ReadersReturn(st: Store, i: nat, j: nat, k: Key, v: Bytes)
    requires Numbered(st) && i < j < |st.open| && Find(Layers(st.open[i..j + 1]), 0, k) == Some(Data(v))
    requires forall f | f in st.disk && f.number > st.open[j].number && f.number !in Nums(st.open[i..j + 1]) :: k !in f.layer
    ensures Durable(Tiered(st, i, j), k) == Some(v)
  {
    TieredDisk(st, i, j);
    OutputGet(RunJob(st.open, i, j), k);
    Unrivalled(Tiered(st, i, j).disk, st.disk, Nums(st.open[i..j + 1]), Output(RunJob(st.open, i, j)), k);
  }
}
