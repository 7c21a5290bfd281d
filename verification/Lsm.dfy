/** The layered store of src/storage: what a read finds in a list of layers, newest first,
    and what compaction does to the list — in memory, and on disk at every point where a
    crash or a failed unlink can stop it. */
module Lsm {
  import opened Basics

  /** A composite key: realm, then key bytes. */
  type Key = seq<nat>
  type Bytes = seq<nat>

  datatype Entry = Data(value: Bytes) | Tombstone

  /** One source of entries: a memtable map or an SST. */
  type Layer = map<Key, Entry>

  /** The entry of the newest layer from `ls[i]` on that holds `k`. */
  function Find(ls: seq<Layer>, i: nat, k: Key): (e: Option<Entry>)
    requires i <= |ls|
    decreases |ls| - i
  {
    if i == |ls| then None
    else if k in ls[i] then Some(ls[i][k])
    else Find(ls, i + 1, k)
  }

  /** What a reader is told: a tombstone reads as absent. */
  function Visible(e: Option<Entry>): (v: Option<Bytes>) {
    if e.Some? && e.value.Data? then Some(e.value.value) else None
  }

  /** `get` on the layers alone. */
  function View(ls: seq<Layer>, k: Key): (v: Option<Bytes>) {
    Visible(Find(ls, 0, k))
  }

  /** The two lists answer every read alike. */
  ghost predicate SameView(a: seq<Layer>, b: seq<Layer>) {
    forall k: Key :: View(a, k) == View(b, k)
  }

  lemma {:induction false} FindShift(a: seq<Layer>, b: seq<Layer>, i: nat, k: Key)
    requires i <= |b|
    ensures Find(a + b, |a| + i, k) == Find(b, i, k)
    decreases |b| - i
  {
    if i < |b| {
      assert (a + b)[|a| + i] == b[i];
      FindShift(a, b, i + 1, k);
    }
  }

  lemma {:induction false} FindPrefix(a: seq<Layer>, b: seq<Layer>, i: nat, k: Key)
    requires i <= |a|
    ensures Find(a + b, i, k) == if Find(a, i, k).Some? then Find(a, i, k) else Find(b, 0, k)
    decreases |a| - i
  {
    if i < |a| {
      assert (a + b)[i] == a[i];
      FindPrefix(a, b, i + 1, k);
    } else {
      FindShift(a, b, 0, k);
    }
  }

  /** A read goes through the upper layers first. */
  lemma FindAppend(a: seq<Layer>, b: seq<Layer>, k: Key)
    ensures Find(a + b, 0, k) == if Find(a, 0, k).Some? then Find(a, 0, k) else Find(b, 0, k)
  {
    FindPrefix(a, b, 0, k);
  }

  lemma FindOne(l: Layer, k: Key)
    ensures Find([l], 0, k) == if k in l then Some(l[k]) else None
  {
    assert Find([l], 1, k) == None;
  }

  // ----- The merge

  /** Newest-wins union of a run of layers. */
  function Union(run: seq<Layer>, i: nat): (m: Layer)
    requires i <= |run|
    decreases |run| - i
  {
    if i == |run| then map[] else Union(run, i + 1) + run[i]
  }

  lemma {:induction false} UnionFinds(run: seq<Layer>, i: nat, k: Key)
    requires i <= |run|
    ensures Find(run, i, k) == if k in Union(run, i) then Some(Union(run, i)[k]) else None
    decreases |run| - i
  {
    if i < |run| { UnionFinds(run, i + 1, k); }
  }

  /** `compact_with_fs_opts`: the merged output, with or without its tombstones. */
  function Merged(run: seq<Layer>, dropTombstones: bool): (m: Layer) {
    var all := Union(run, 0);
    if dropTombstones then map k | k in all && all[k].Data? :: all[k] else all
  }

  lemma MergedFinds(run: seq<Layer>, drop: bool, k: Key)
    ensures !drop ==> Find([Merged(run, drop)], 0, k) == Find(run, 0, k)
    ensures drop ==> Find([Merged(run, drop)], 0, k) ==
                     if Find(run, 0, k) == Some(Tombstone) then None else Find(run, 0, k)
  {
    UnionFinds(run, 0, k);
    FindOne(Merged(run, drop), k);
  }

  // ----- Partial compaction

  /** The files on disk while a partial compaction of `run` commits: the output has taken the
      slot of the oldest member, and all but the `left` newest other members are unlinked. */
  function PartialDisk(top: seq<Layer>, run: seq<Layer>, below: seq<Layer>, left: nat): (disk: seq<Layer>)
    requires left <= |run|
  {
    top + run[..left] + [Merged(run, below == [])] + below
  }

  /** Looking in a part of the run and then in the output finds what the run holds. */
  lemma PartThenMerged(run: seq<Layer>, drop: bool, left: nat, k: Key)
    requires left <= |run|
    ensures var found := Find(run[..left] + [Merged(run, drop)], 0, k);
            || found == Find(run, 0, k)
            || (drop && found == None && Find(run, 0, k) == Some(Tombstone))
  {
    var upper := run[..left];
    FindAppend(upper, [Merged(run, drop)], k);
    MergedFinds(run, drop, k);
    assert run == upper + run[left..];
    FindAppend(upper, run[left..], k);
  }

  /** At every point of the commit of a partial compaction — before the unlinks, between any
      two of them, and after — every read is answered as before it.  The tombstones are
      dropped only when nothing older than the run is left. */
  lemma PartialCompactionInvisible(top: seq<Layer>, run: seq<Layer>, below: seq<Layer>, left: nat)
    requires left <= |run|
    ensures SameView(PartialDisk(top, run, below, left), top + run + below)
  {
    forall k: Key ensures View(PartialDisk(top, run, below, left), k) == View(top + run + below, k) {
      var drop := below == [];
      var mid := run[..left] + [Merged(run, drop)];
      assert PartialDisk(top, run, below, left) == top + (mid + below);
      assert top + run + below == top + (run + below);
      FindAppend(top, mid + below, k);
      FindAppend(top, run + below, k);
      FindAppend(mid, below, k);
      FindAppend(run, below, k);
      PartThenMerged(run, drop, left, k);
    }
  }

  // ----- Full compaction

  /** The files on disk while a full compaction of `inputs` commits: the output is newer than
      all inputs, files flushed meanwhile (`flushed`) are newer still, and all but the `left`
      newest inputs are unlinked. */
  function FullDisk(flushed: seq<Layer>, inputs: seq<Layer>, left: nat): (disk: seq<Layer>)
    requires left <= |inputs|
  {
    flushed + [Merged(inputs, true)] + inputs[..left]
  }

  /** The output above what is left of the inputs: a key the inputs deleted is either still
      shadowed by its tombstone or gone altogether. */
  lemma MergedThenPart(inputs: seq<Layer>, left: nat, k: Key)
    requires left <= |inputs|
    ensures Visible(Find([Merged(inputs, true)] + inputs[..left], 0, k)) == Visible(Find(inputs, 0, k))
  {
    var upper := inputs[..left];
    FindAppend([Merged(inputs, true)], upper, k);
    MergedFinds(inputs, true, k);
    assert inputs == upper + inputs[left..];
    FindAppend(upper, inputs[left..], k);
  }

  /** At every point of the commit of a full compaction every read is answered as before it,
      although the output holds no tombstones. */
  lemma FullCompactionInvisible(flushed: seq<Layer>, inputs: seq<Layer>, left: nat)
    requires left <= |inputs|
    ensures SameView(FullDisk(flushed, inputs, left), flushed + inputs)
  {
    forall k: Key ensures View(FullDisk(flushed, inputs, left), k) == View(flushed + inputs, k) {
      var rest := [Merged(inputs, true)] + inputs[..left];
      assert FullDisk(flushed, inputs, left) == flushed + rest;
      FindAppend(flushed, rest, k);
      FindAppend(flushed, inputs, k);
      MergedThenPart(inputs, left, k);
    }
  }

  /** The order of the unlinks matters: with the newest inputs unlinked first, a deleted key
      comes back as soon as its tombstone is gone and its value is not. */
  lemma NewestFirstResurrects(k: Key, v: Bytes)
    ensures var inputs: seq<Layer> := [map[k := Tombstone], map[k := Data(v)]];
            && View(inputs, k) == None
            && View([Merged(inputs, true)] + inputs[1..], k) == Some(v)
  {
    var inputs: seq<Layer> := [map[k := Tombstone], map[k := Data(v)]];
    FindOne(inputs[1], k);
    assert inputs[1..] == [inputs[1]];
    FindAppend([Merged(inputs, true)], inputs[1..], k);
    MergedFinds(inputs, true, k);
  }

  // ----- The reader list

  /** An SST file, or an open reader of one: readers are told apart by file number. */
  datatype File = File(number: nat, layer: Layer)

  function Layers(files: seq<File>): (ls: seq<Layer>)
    ensures |ls| == |files| && forall i | 0 <= i < |files| :: ls[i] == files[i].layer
  {
    seq(|files|, i requires 0 <= i < |files| => files[i].layer)
  }

  predicate Descending(files: seq<File>) {
    forall i, j | 0 <= i < j < |files| :: files[i].number > files[j].number
  }

  /** The open reader with the number of `f`, if there is one. */
  function Opened(f: File, open: seq<File>): (r: File)
    ensures r.number == f.number
    ensures (forall i | 0 <= i < |open| :: open[i].number != f.number) ==> r == f
    ensures r == f || r in open
  {
    if open == [] then f
    else if open[0].number == f.number then open[0]
    else Opened(f, open[1..])
  }

  /** `load_sst_readers`: every file on disk, through its open reader if it has one. */
  function Reload(disk: seq<File>, open: seq<File>): (r: seq<File>)
    ensures |r| == |disk| && forall i | 0 <= i < |disk| :: r[i] == Opened(disk[i], open)
  {
    seq(|disk|, i requires 0 <= i < |disk| => Opened(disk[i], open))
  }

  /** Reloading is exact when every open reader shows what its file holds. */
  lemma ReloadExact(disk: seq<File>, open: seq<File>)
    requires forall i, j | 0 <= i < |disk| && 0 <= j < |open| ::
               disk[i].number == open[j].number ==> disk[i] == open[j]
    ensures Reload(disk, open) == disk
  {
    forall i | 0 <= i < |disk| ensures Reload(disk, open)[i] == disk[i] {}
  }

  /** A partial compaction stopped by a failed unlink: the disk is as `PartialDisk` says, the
      reader list is the old one.  A flush then adds a file and reloads. */
  function AbortedDisk(top: seq<File>, run: seq<File>, below: seq<File>, left: nat): (disk: seq<File>)
    requires run != [] && left < |run|
  {
    top + run[..left]
    + [File(run[|run| - 1].number, Merged(Layers(run), below == []))] + below
  }

  /** What that reload publishes: the reader of the oldest member is still the one of the
      file that the output replaced. */
  function AfterAbort(flushed: File, top: seq<File>, run: seq<File>, below: seq<File>, left: nat): (r: seq<File>)
    requires run != [] && left < |run|
  {
    Reload([flushed] + AbortedDisk(top, run, below, left), top + run + below)
  }

  predicate Distinct(files: seq<File>) {
    forall f, g | f in files && g in files && f.number == g.number :: f == g
  }

  lemma {:induction false} OpenedIs(f: File, open: seq<File>, r: File)
    requires Distinct(open) && r in open && r.number == f.number
    ensures Opened(f, open) == r
  {
    if open[0].number != f.number {
      assert Distinct(open[1..]) by { assert forall g | g in open[1..] :: g in open; }
      assert open == [open[0]] + open[1..];
      OpenedIs(f, open[1..], r);
    } else {
      assert open[0] in open;
    }
  }

  lemma ReloadAppend(a: seq<File>, b: seq<File>, open: seq<File>)
    ensures Reload(a + b, open) == Reload(a, open) + Reload(b, open)
  {
  }

  lemma ReloadKept(part: seq<File>, open: seq<File>)
    requires Distinct(open) && forall f | f in part :: f in open
    ensures Reload(part, open) == part
  {
    forall i | 0 <= i < |part| ensures Opened(part[i], open) == part[i] {
      OpenedIs(part[i], open, part[i]);
    }
  }

  lemma DescendingDistinct(files: seq<File>)
    requires Descending(files)
    ensures Distinct(files)
  {
  }

  lemma ReloadNew(f: File, open: seq<File>)
    requires Descending([f] + open)
    ensures Reload([f], open) == [f]
  {
    var all := [f] + open;
    forall i | 0 <= i < |open| ensures open[i].number != f.number {
      assert all[0].number > all[i + 1].number;
    }
  }

  /** The published list, written out. */
  lemma AfterAbortIs(flushed: File, top: seq<File>, run: seq<File>, below: seq<File>, left: nat)
    requires run != [] && left < |run| && Descending([flushed] + (top + run + below))
    ensures AfterAbort(flushed, top, run, below, left) ==
            [flushed] + (top + run[..left] + [run[|run| - 1]] + below)
  {
    var open, last := top + run + below, run[|run| - 1];
    var out := File(last.number, Merged(Layers(run), below == []));
    DescendingDistinct([flushed] + open);
    assert Distinct(open) by { assert forall f | f in open :: f in [flushed] + open; }
    assert last in run;
    ReloadNew(flushed, open);
    ReloadKept(top, open);
    ReloadKept(run[..left], open);
    ReloadKept(below, open);
    OpenedIs(out, open, last);
    assert Reload([out], open) == [last];
    ReloadAppend([flushed], top + run[..left] + [out] + below, open);
    ReloadAppend(top + run[..left] + [out], below, open);
    ReloadAppend(top + run[..left], [out], open);
    ReloadAppend(top, run[..left], open);
  }

  /** If no member was unlinked before the failure, the reload answers every read rightly. */
  lemma AbortBeforeUnlinks(flushed: File, top: seq<File>, run: seq<File>, below: seq<File>)
    requires run != [] && Descending([flushed] + (top + run + below))
    ensures AfterAbort(flushed, top, run, below, |run| - 1) == [flushed] + (top + run + below)
  {
    AfterAbortIs(flushed, top, run, below, |run| - 1);
    assert run == run[..|run| - 1] + [run[|run| - 1]];
  }

  lemma LayersAppend(a: seq<File>, b: seq<File>)
    ensures Layers(a + b) == Layers(a) + Layers(b)
  {
  }

  /** Taking the layers `gone` out from between others changes the answer to a read of `k`
      unless a layer above has `k`, or none of them has it, or they answer as those below. */
  lemma WithoutIff(upper: seq<Layer>, gone: seq<Layer>, rest: seq<Layer>, k: Key)
    ensures View(upper + rest, k) == View(upper + gone + rest, k) <==>
            Find(upper, 0, k).Some? || Find(gone, 0, k).None? || View(gone, k) == View(rest, k)
  {
    FindAppend(upper, rest, k);
    FindAppend(upper + gone, rest, k);
    FindAppend(upper, gone, k);
  }

  /** For all contents, every point of failure and every key: the list after the reload answers
      a read rightly exactly when a file above the unlinked members holds the key, or no
      unlinked member other than the oldest holds it, or these answer as what is below them. */
  lemma AbortReadsIff(flushed: File, top: seq<File>, run: seq<File>, below: seq<File>, left: nat, k: Key)
    requires left < |run| && Descending([flushed] + (top + run + below))
    ensures var upper, gone := Layers([flushed] + top + run[..left]), Layers(run[left..|run| - 1]);
            var rest := Layers([run[|run| - 1]] + below);
            View(Layers(AfterAbort(flushed, top, run, below, left)), k) == View(Layers([flushed] + (top + run + below)), k)
            <==> Find(upper, 0, k).Some? || Find(gone, 0, k).None? || View(gone, k) == View(rest, k)
  {
    var upper, gone, rest := [flushed] + top + run[..left], run[left..|run| - 1], [run[|run| - 1]] + below;
    AfterAbortIs(flushed, top, run, below, left);
    assert [flushed] + (top + run[..left] + [run[|run| - 1]] + below) == upper + rest;
    assert run == run[..left] + gone + [run[|run| - 1]];
    assert [flushed] + (top + run + below) == upper + gone + rest;
    LayersAppend(upper, rest);
    LayersAppend(upper + gone, rest);
    LayersAppend(upper, gone);
    WithoutIff(Layers(upper), Layers(gone), Layers(rest), k);
  }

  lemma {:induction false} FindEmpty(ls: seq<Layer>, i: nat, k: Key)
    requires i <= |ls| && forall j | i <= j < |ls| :: k !in ls[j]
    ensures Find(ls, i, k) == None
    decreases |ls| - i
  {
    if i < |ls| { FindEmpty(ls, i + 1, k); }
  }

  lemma {:induction false} FindAt(ls: seq<Layer>, i: nat, at: nat, k: Key)
    requires i <= at < |ls| && k in ls[at] && forall j | i <= j < at :: k !in ls[j]
    ensures Find(ls, i, k) == Some(ls[at][k])
    decreases at - i
  {
    if i < at { FindAt(ls, i + 1, at, k); }
  }

  lemma AbortedLayers(top: seq<File>, run: seq<File>, below: seq<File>, left: nat)
    requires run != [] && left < |run|
    ensures Layers(AbortedDisk(top, run, below, left)) == PartialDisk(Layers(top), Layers(run), Layers(below), left)
    ensures Layers(top + run + below) == Layers(top) + Layers(run) + Layers(below)
  {
    var out := File(run[|run| - 1].number, Merged(Layers(run), below == []));
    LayersAppend(top + run[..left] + [out], below);
    LayersAppend(top + run[..left], [out]);
    LayersAppend(top, run[..left]);
    LayersAppend(top + run, below);
    LayersAppend(top, run);
    assert Layers(run[..left]) == Layers(run)[..left];
  }

  /** What is on disk after the abort still answers every read as before it. */
  lemma AbortedDiskView(top: seq<File>, run: seq<File>, below: seq<File>, left: nat, k: Key)
    requires run != [] && left < |run|
    ensures View(Layers(AbortedDisk(top, run, below, left)), k) == View(Layers(top + run + below), k)
  {
    AbortedLayers(top, run, below, left);
    PartialCompactionInvisible(Layers(top), Layers(run), Layers(below), left);
  }

  /** If any member was unlinked, an entry that only it held is lost to the reload, although it
      is still on disk: the reader list shows neither the member nor the output. */
  lemma AbortAfterUnlinkLoses(flushed: File, top: seq<File>, run: seq<File>, below: seq<File>, left: nat, m: nat, k: Key)
    requires left <= m < |run| - 1 && Descending([flushed] + (top + run + below))
    requires k in run[m].layer && k !in flushed.layer
    requires forall f | f in top + run + below && f.number != run[m].number :: k !in f.layer
    ensures View(Layers([flushed] + (top + run + below)), k) == Visible(Some(run[m].layer[k]))
    ensures View(Layers([flushed] + AbortedDisk(top, run, below, left)), k) == Visible(Some(run[m].layer[k]))
    ensures Find(Layers(AfterAbort(flushed, top, run, below, left)), 0, k) == None
  {
    AfterAbortIs(flushed, top, run, below, left);
    var files := top + run + below;
    MemberIn(flushed, top, run, below, m);
    OnlyHolder(files, |top| + m, k);
    SkipFirst(flushed, files, k);
    SkipFirst(flushed, AbortedDisk(top, run, below, left), k);
    AbortedDiskView(top, run, below, left, k);
    NotAfterAbort(flushed, top, run, below, left, m, k);
  }

  lemma MemberIn(flushed: File, top: seq<File>, run: seq<File>, below: seq<File>, m: nat)
    requires m < |run| && Descending([flushed] + (top + run + below))
    ensures (top + run + below)[|top| + m] == run[m]
    ensures forall i | 0 <= i < |top| + m :: (top + run + below)[i].number != run[m].number
  {
    var all, files := [flushed] + (top + run + below), top + run + below;
    assert forall i | 0 <= i < |files| :: files[i] == all[i + 1];
  }

  lemma SkipFirst(f: File, fs: seq<File>, k: Key)
    requires k !in f.layer
    ensures View(Layers([f] + fs), k) == View(Layers(fs), k)
  {
    LayersAppend([f], fs);
    FindAppend(Layers([f]), Layers(fs), k);
    FindOne(f.layer, k);
    assert Layers([f]) == [f.layer];
  }

  lemma OnlyHolder(fs: seq<File>, at: nat, k: Key)
    requires at < |fs| && k in fs[at].layer && forall f | f in fs && f.number != fs[at].number :: k !in f.layer
    requires forall i | 0 <= i < at :: fs[i].number != fs[at].number
    ensures View(Layers(fs), k) == Visible(Some(fs[at].layer[k]))
  {
    forall j | 0 <= j < at ensures k !in Layers(fs)[j] { assert fs[j] in fs; }
    FindAt(Layers(fs), 0, at, k);
  }

  lemma NotAfterAbort(flushed: File, top: seq<File>, run: seq<File>, below: seq<File>, left: nat, m: nat, k: Key)
    requires left <= m < |run| - 1 && Descending([flushed] + (top + run + below)) && k !in flushed.layer
    requires forall f | f in top + run + below && f.number != run[m].number :: k !in f.layer
    ensures Find(Layers([flushed] + (top + run[..left] + [run[|run| - 1]] + below)), 0, k) == None
  {
    var all, after := [flushed] + (top + run + below), [flushed] + (top + run[..left] + [run[|run| - 1]] + below);
    forall j | 0 <= j < |after| ensures k !in Layers(after)[j] {
      var i := if j <= |top| + left then j else j + (|run| - 1 - left);
      assert after[j] == all[i];
      assert all[|top| + 1 + m] == run[m] && i != |top| + 1 + m;
      if i > 0 { assert all[i] in top + run + below; }
    }
    FindEmpty(Layers(after), 0, k);
  }
}
