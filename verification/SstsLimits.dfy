/** Runs of `Ssts` that lose what they should keep: a flush after a partial compaction that failed
    when it had unlinked an input, and a compaction from a list that is behind the files. */
module SstsLimits {
  import opened Basics
  import opened Lsm
  import opened Ssts

  /** `cs`, step by step, lead from `st` to `r`. */
  ghost predicate Steps(st: Store, cs: seq<Change>, r: Store)
    decreases |cs|
  {
    if cs == [] then st == r else Can(st, cs[0]) && Steps(After(st, cs[0]), cs[1..], r)
  }

  ghost predicate Leads(st: Store, r: Store) {
    exists cs: seq<Change> :: Steps(st, cs, r)
  }

  lemma StepsCons(st: Store, c: Change, cs: seq<Change>, r: Store)
    requires Can(st, c) && Steps(After(st, c), cs, r)
    ensures Steps(st, [c] + cs, r)
  {
    assert ([c] + cs)[1..] == cs;
  }

  lemma {:induction false} StepsSnoc(st: Store, cs: seq<Change>, r: Store, c: Change)
    requires Steps(st, cs, r) && Can(r, c)
    ensures Steps(st, cs + [c], After(r, c))
    decreases |cs|
  {
    if cs == [] {
      assert Steps(After(r, c), [], After(r, c));
      StepsCons(st, c, [], After(r, c));
    } else {
      StepsSnoc(After(st, cs[0]), cs[1..], r, c);
      StepsCons(st, cs[0], cs[1..] + [c], After(r, c));
      assert cs + [c] == [cs[0]] + (cs[1..] + [c]);
    }
  }

  /** Flushes, whether their file lands or not, and full compactions take a number. */
  predicate TakesNumber(c: Change) {
    c.Flush? || c.Land? || c.Waste? || c.StartFull?
  }

  function Taken(cs: seq<Change>): (n: nat) {
    if cs == [] then 0 else (if TakesNumber(cs[0]) then 1 else 0) + Taken(cs[1..])
  }

  /** Over any number of steps, clean or not, every one of them takes one number, and no other does; so
      no number is given out twice. */
  lemma {:induction false} NumbersTaken(st: Store, cs: seq<Change>, r: Store)
    requires Steps(st, cs, r)
    ensures r.next == st.next + Taken(cs)
    decreases |cs|
  {
    if cs != [] { NumbersTaken(After(st, cs[0]), cs[1..], r); }
  }

  lemma LeadsSelf(st: Store)
    ensures Leads(st, st)
  {
    assert Steps(st, [], st);
  }

  lemma LeadsNext(st: Store, r: Store, c: Change)
    requires Leads(st, r) && Can(r, c)
    ensures Leads(st, After(r, c))
  {
    var cs: seq<Change> :| Steps(st, cs, r);
    StepsSnoc(st, cs, r, c);
  }

  lemma LeadsStart(st: Store, r: Store, i: nat, j: nat)
    requires Leads(st, r) && r.job.NoJob? && i < j < |r.open|
    ensures Leads(st, r.(job := RunJob(r.open, i, j)))
  {
    LeadsNext(st, r, StartPartial(i, j));
  }

  lemma LeadsAbort(st: Store, r: Store, left: nat)
    requires Leads(st, r) && r.job.Job? && left <= |r.job.inputs|
    ensures Leads(st, Aborted(r, left))
  {
    LeadsNext(st, r, Abort(left));
  }

  lemma LeadsFlush(st: Store, r: Store, l: Layer)
    requires Leads(st, r)
    ensures Leads(st, Refreshed(Landed(r, l)))
  {
    LeadsNext(st, r, Flush(l));
  }

  lemma LeadsCommit(st: Store, r: Store)
    requires Leads(st, r) && r.job.Job?
    ensures Leads(st, Committed(r))
  {
    LeadsNext(st, r, Commit);
  }

  lemma LeadsCompacted(st: Store, r: Store)
    requires Leads(st, r) && r.job.NoJob?
    ensures Leads(st, Compacted(r))
  {
    LeadsNext(st, r, StartFull);
    LeadsCommit(st, After(r, StartFull));
  }

  predicate Fit(files: seq<File>, next: nat) {
    Descending(files) && forall f | f in files :: f.number < next
  }

  // ----- A partial compaction that fails when it has unlinked an input

  function RunStarted(top: seq<File>, run: seq<File>, below: seq<File>, next: nat): (st: Store)
    requires |run| >= 2
  {
    var files := top + run + below;
    Opening(files, next).(job := RunJob(files, |top|, |top| + |run| - 1))
  }

  lemma RunStartedIs(top: seq<File>, run: seq<File>, below: seq<File>, next: nat)
    requires |run| >= 2
    ensures RunStarted(top, run, below, next).job == Job(false, run, Nums(run), run[|run| - 1].number, below == [])
  {
    var files := top + run + below;
    assert files[|top|..|top| + |run|] == run;
  }

  lemma Parts(top: seq<File>, run: seq<File>, below: seq<File>, left: nat, g: File)
    requires Descending(top + run + below) && left <= |run|
    ensures g in top + run + below && g.number !in Nums(run[left..]) <==> g in top + run[..left] + below
  {
    var files := top + run + below;
    assert run == run[..left] + run[left..];
    if g in top + run[..left] + below && g.number in Nums(run[left..]) {
      var h := FileOf(run[left..], g.number);
      assert h in files && g in files;
      SameFile(files, g, h);
      PartsApart(top, run, below, left, g);
    }
  }

  lemma PartsApart(top: seq<File>, run: seq<File>, below: seq<File>, left: nat, g: File)
    requires Descending(top + run + below) && left <= |run| && g in run[left..]
    ensures g !in top + run[..left] + below
  {
    var files, rest := top + run + below, top + run[..left] + below;
    var i :| 0 <= i < |run[left..]| && run[left..][i] == g;
    assert files[|top| + left + i] == g;
    forall j | 0 <= j < |rest| ensures rest[j] != g {
      assert rest[j] == files[if j < |top| + left then j else j + (|run| - left)];
    }
  }

  lemma RunNums(run: seq<File>, left: nat)
    requires left < |run|
    ensures Nums(run[left..]) - {run[|run| - 1].number} + {run[|run| - 1].number} == Nums(run[left..])
  {
    assert run[|run| - 1] == run[left..][|run| - 1 - left];
  }

  lemma AbortedReplaces(top: seq<File>, run: seq<File>, below: seq<File>, left: nat)
    requires left < |run| && Descending(top + run + below)
    ensures Replaces(AbortedDisk(top, run, below, left), top + run + below, Nums(run[left..]),
                     File(run[|run| - 1].number, Merged(Layers(run), below == [])))
  {
    var disk, z := AbortedDisk(top, run, below, left), File(run[|run| - 1].number, Merged(Layers(run), below == []));
    AbortedDescending(top, run, below, left);
    forall g ensures g in disk <==> g == z || (g in top + run + below && g.number !in Nums(run[left..])) {
      Parts(top, run, below, left, g);
      assert g in disk <==> g == z || g in top + run[..left] + below;
    }
  }

  lemma CommitReplaces(st: Store, left: nat)
    requires st.job.Job? && left <= |st.job.inputs| && Descending(st.disk)
    ensures Replaces(Committing(st, left), st.disk, Gone(st.job, left) + {st.job.target}, Output(st.job))
  {
  }

  lemma ReplacesSame(a: seq<File>, b: seq<File>, from: seq<File>, nums: set<nat>, z: File)
    requires Replaces(a, from, nums, z) && Replaces(b, from, nums, z)
    ensures a == b
  {
    SameFiles(a, b);
  }

  /** The files after the failed commit are as `AbortedDisk` says. */
  lemma AbortedIs(top: seq<File>, run: seq<File>, below: seq<File>, next: nat, left: nat)
    requires |run| >= 2 && left < |run| && Fit(top + run + below, next)
    ensures var st := RunStarted(top, run, below, next);
            st.job.Job? && left <= |st.job.inputs| && Committing(st, left) == AbortedDisk(top, run, below, left)
  {
    var st := RunStarted(top, run, below, next);
    RunStartedIs(top, run, below, next);
    CommitReplaces(st, left);
    RunNums(run, left);
    AbortedReplaces(top, run, below, left);
    ReplacesSame(Committing(st, left), AbortedDisk(top, run, below, left), st.disk, Nums(run[left..]), Output(st.job));
  }

  lemma AbortedDescending(top: seq<File>, run: seq<File>, below: seq<File>, left: nat)
    requires left < |run| && Descending(top + run + below)
    ensures Descending(AbortedDisk(top, run, below, left))
  {
    var files, disk := top + run + below, AbortedDisk(top, run, below, left);
    forall i | 0 <= i < |disk| ensures
      disk[i].number == files[if i < |top| + left then i else i + (|run| - 1 - left)].number
    {
    }
  }

  /** The store after the failed commit and a flush of `l`: what `AfterAbort` says of the list. */
  function AbortedStore(top: seq<File>, run: seq<File>, below: seq<File>, next: nat, left: nat, l: Layer): (st: Store)
    requires left < |run|
  {
    var f := File(next, l);
    Store([f] + AbortedDisk(top, run, below, left), AfterAbort(f, top, run, below, left), next + 1, NoJob)
  }

  lemma LeadsAborted(top: seq<File>, run: seq<File>, below: seq<File>, next: nat, left: nat)
    requires |run| >= 2 && left < |run| && Fit(top + run + below, next)
    ensures Leads(Opening(top + run + below, next),
                  Store(AbortedDisk(top, run, below, left), top + run + below, next, NoJob))
  {
    LeadsRunStarted(top, run, below, next);
    AbortedIs(top, run, below, next, left);
    LeadsAbort(Opening(top + run + below, next), RunStarted(top, run, below, next), left);
  }

  lemma LeadsRunStarted(top: seq<File>, run: seq<File>, below: seq<File>, next: nat)
    requires |run| >= 2
    ensures Leads(Opening(top + run + below, next), RunStarted(top, run, below, next))
  {
    var st := Opening(top + run + below, next);
    LeadsSelf(st);
    LeadsStart(st, st, |top|, |top| + |run| - 1);
  }

  lemma AbortedFlush(top: seq<File>, run: seq<File>, below: seq<File>, next: nat, left: nat, l: Layer)
    requires left < |run|
    ensures Refreshed(Landed(Store(AbortedDisk(top, run, below, left), top + run + below, next, NoJob), l)) ==
            AbortedStore(top, run, below, next, left, l)
  {
  }

  lemma LeadsAbortedStore(top: seq<File>, run: seq<File>, below: seq<File>, next: nat, left: nat, l: Layer)
    requires |run| >= 2 && left < |run| && Fit(top + run + below, next)
    ensures Leads(Opening(top + run + below, next), AbortedStore(top, run, below, next, left, l))
  {
    LeadsAborted(top, run, below, next, left);
    LeadsFlush(Opening(top + run + below, next),
               Store(AbortedDisk(top, run, below, left), top + run + below, next, NoJob), l);
  }

  lemma AbortedNumbered(top: seq<File>, run: seq<File>, below: seq<File>, next: nat, left: nat, l: Layer)
    requires left < |run| && Fit(top + run + below, next)
    ensures Numbered(AbortedStore(top, run, below, next, left, l))
    ensures var st := AbortedStore(top, run, below, next, left, l); Nums(st.disk) == Nums(st.open)
  {
    var st := AbortedStore(top, run, below, next, left, l);
    AbortedReplaces(top, run, below, left);
    ReloadDescending(st.disk, top + run + below);
    ReloadNums(st.disk, top + run + below);
    forall g | g in st.disk ensures g.number < st.next { LastIn(top, run, below); }
    forall g | g in st.open ensures g.number < st.next { var f := ReloadFrom(st.disk, top + run + below, g); }
  }

  lemma LastIn(top: seq<File>, run: seq<File>, below: seq<File>)
    requires run != []
    ensures run[|run| - 1] in top + run + below
  {
    assert run[|run| - 1] in run;
  }

  lemma FitCons(files: seq<File>, next: nat, l: Layer)
    requires Fit(files, next)
    ensures Descending([File(next, l)] + files)
  {
  }

  /** A value that only an unlinked input held: it is on disk after the failed commit and the
      flush, the list does not show it, and the next full compaction removes it from disk. */
  lemma AbortedCompactionLoses(top: seq<File>, run: seq<File>, below: seq<File>, next: nat, left: nat, l: Layer,
                               m: nat, k: Key, v: Bytes)
    requires |run| >= 2 && left <= m < |run| - 1 && Fit(top + run + below, next)
    requires k in run[m].layer && run[m].layer[k] == Data(v) && k !in l
    requires forall f | f in top + run + below && f.number != run[m].number :: k !in f.layer
    ensures var st := AbortedStore(top, run, below, next, left, l);
            && Leads(Opening(top + run + below, next), st) && Leads(Opening(top + run + below, next), Compacted(st))
            && Durable(st, k) == Some(v) && Live(st, k) == None && Durable(Compacted(st), k) == None
  {
    var st := AbortedStore(top, run, below, next, left, l);
    FitCons(top + run + below, next, l);
    AbortAfterUnlinkLoses(File(next, l), top, run, below, left, m, k);
    AbortedNumbered(top, run, below, next, left, l);
    LossBecomesPermanent(st, k, v);
    LeadsAbortedStore(top, run, below, next, left, l);
    LeadsCompacted(Opening(top + run + below, next), st);
  }

  // ----- A full compaction that fails when its output is in place

  /** The files before, the SST of a flush during the merge, and the output between them; the list
      has no reader for the output. */
  function Straggling(files: seq<File>, next: nat, l: Layer, left: nat): (st: Store)
    requires left <= |files|
  {
    var f, z := File(next + 1, l), File(next, Merged(Layers(files), true));
    Store([f, z] + files[..left], [f] + files, next + 2, NoJob)
  }

  function FullStarted(files: seq<File>, open: seq<File>, next: nat, free: nat): (st: Store) {
    Store(open, open, free, Job(true, files, Nums(files), next, true))
  }

  lemma SelfReload(files: seq<File>)
    requires Descending(files)
    ensures Reload(files, files) == files
  {
    DescendingDistinct(files);
    ReloadKept(files, files);
  }

  lemma FlushedList(files: seq<File>, f: File)
    requires Descending(files) && Descending([f] + files)
    ensures Reload([f] + files, files) == [f] + files
  {
    ReloadAppend([f], files, files);
    assert Reload([f], files) == [f] by { ReloadNew(f, files); }
    assert Reload(files, files) == files by { SelfReload(files); }
  }

  lemma LeadsFullStarted(files: seq<File>, next: nat)
    ensures Leads(Opening(files, next), FullStarted(files, files, next, next + 1))
  {
    LeadsSelf(Opening(files, next));
    LeadsNext(Opening(files, next), Opening(files, next), StartFull);
  }

  lemma LeadsFlushedMeanwhile(files: seq<File>, next: nat, l: Layer)
    requires Fit(files, next)
    ensures Leads(Opening(files, next), FullStarted(files, [File(next + 1, l)] + files, next, next + 2))
  {
    LeadsFullStarted(files, next);
    var st := FullStarted(files, files, next, next + 1);
    LeadsFlush(Opening(files, next), st, l);
    FlushedList(files, File(next + 1, l));
    assert Refreshed(Landed(st, l)) == FullStarted(files, [File(next + 1, l)] + files, next, next + 2);
  }

  lemma StragglingReplaces(files: seq<File>, next: nat, l: Layer, left: nat)
    requires Fit(files, next) && left <= |files|
    ensures Replaces(Straggling(files, next, l, left).disk, [File(next + 1, l)] + files, Nums(files[left..]) + {next},
                     File(next, Merged(Layers(files), true)))
  {
    var f, z := File(next + 1, l), File(next, Merged(Layers(files), true));
    var disk, all := [f, z] + files[..left], [f] + files;
    assert all == [f] + files + [];
    assert Descending(disk);
    forall g ensures g in disk <==> g == z || (g in all && g.number !in Nums(files[left..]) + {next}) {
      Parts([f], files, [], left, g);
      assert [f] + files[..left] + [] == [f] + files[..left];
      assert g in disk <==> g == z || g in [f] + files[..left];
      assert g in all ==> g.number != next;
    }
  }

  lemma StragglingIs(files: seq<File>, next: nat, l: Layer, left: nat)
    requires Fit(files, next) && left <= |files|
    ensures Committing(FullStarted(files, [File(next + 1, l)] + files, next, next + 2), left) ==
            Straggling(files, next, l, left).disk
  {
    var st := FullStarted(files, [File(next + 1, l)] + files, next, next + 2);
    FitCons(files, next + 1, l);
    CommitReplaces(st, left);
    StragglingReplaces(files, next, l, left);
    assert Gone(st.job, left) + {next} == Nums(files[left..]) + {next};
    ReplacesSame(Committing(st, left), Straggling(files, next, l, left).disk, st.disk, Nums(files[left..]) + {next}, Output(st.job));
  }

  lemma LeadsStraggling(files: seq<File>, next: nat, l: Layer, left: nat)
    requires Fit(files, next) && left <= |files|
    ensures Leads(Opening(files, next), Straggling(files, next, l, left))
  {
    LeadsFlushedMeanwhile(files, next, l);
    StragglingIs(files, next, l, left);
    LeadsAbort(Opening(files, next), FullStarted(files, [File(next + 1, l)] + files, next, next + 2), left);
  }

  lemma StragglingNumbered(files: seq<File>, next: nat, l: Layer, left: nat)
    requires Fit(files, next) && left <= |files|
    ensures Numbered(Straggling(files, next, l, left))
  {
    StragglingReplaces(files, next, l, left);
    FitCons(files, next + 1, l);
  }

  lemma StragglerHolds(files: seq<File>, k: Key, v: Bytes)
    requires View(Layers(files), k) == Some(v)
    ensures var z := Merged(Layers(files), true); k in z && z[k] == Data(v)
  {
    MergedFinds(Layers(files), true, k);
    FindOne(Merged(Layers(files), true), k);
  }

  /** The list and the files show the write that was flushed during the merge. */
  lemma StragglingShows(files: seq<File>, next: nat, l: Layer, left: nat, k: Key)
    requires left <= |files| && k in l
    ensures var st := Straggling(files, next, l, left);
            Live(st, k) == Visible(Some(l[k])) && Durable(st, k) == Visible(Some(l[k]))
  {
    var st, f := Straggling(files, next, l, left), File(next + 1, l);
    ViewCons(f, files, k);
    ViewCons(f, st.disk[1..], k);
    assert st.disk == [f] + st.disk[1..];
  }

  lemma OnlyStraggler(files: seq<File>, next: nat, l: Layer, left: nat)
    requires Fit(files, next) && left <= |files|
    ensures Unlisted(Straggling(files, next, l, left)) == [File(next, Merged(Layers(files), true))]
  {
    var st, z := Straggling(files, next, l, left), File(next, Merged(Layers(files), true));
    StragglingNumbered(files, next, l, left);
    forall g ensures g in Unlisted(st) <==> g in [z] {
      if g in files[..left] { assert g in st.open; }
    }
    SameFiles(Unlisted(st), [z]);
  }

  /** A key that is deleted and flushed while a full compaction merges comes back for good, if
      that compaction fails after the rename and the next full one runs before a reload. */
  lemma DeleteUndone(files: seq<File>, next: nat, l: Layer, left: nat, k: Key, v: Bytes)
    requires Fit(files, next) && left <= |files| && View(Layers(files), k) == Some(v) && k in l && l[k] == Tombstone
    ensures var st := Straggling(files, next, l, left);
            && Leads(Opening(files, next), st) && Leads(Opening(files, next), Compacted(st))
            && Live(st, k) == Durable(st, k) == None && Durable(Compacted(st), k) == Some(v)
  {
    var st := Straggling(files, next, l, left);
    StragglingShows(files, next, l, left, k);
    StragglingNumbered(files, next, l, left);
    OnlyStraggler(files, next, l, left);
    CompactedView(st, k);
    StragglerHolds(files, k, v);
    FindOne(Merged(Layers(files), true), k);
    assert Layers(Unlisted(st)) == [Merged(Layers(files), true)];
    LeadsStraggling(files, next, l, left);
    LeadsCompacted(Opening(files, next), st);
  }

  lemma NewestIsFlushed(files: seq<File>, next: nat, l: Layer, left: nat)
    requires Fit(files, next) && left <= |files|
    ensures forall g | g in Straggling(files, next, l, left).disk && g.number > next :: g.number == next + 1
  {
    assert forall g | g in files[..left] :: g in files;
  }

  /** A key that is written and flushed in that time goes back to its older value, if a partial
      compaction of the two newest readers runs before a reload. */
  lemma WriteUndone(files: seq<File>, next: nat, l: Layer, left: nat, k: Key, v: Bytes)
    requires Fit(files, next) && files != [] && left <= |files| && View(Layers(files), k) == Some(v) && k in l
    ensures var st := Straggling(files, next, l, left);
            && Leads(Opening(files, next), st) && Leads(Opening(files, next), Tiered(st, 0, 1))
            && Live(st, k) == Durable(st, k) == Visible(Some(l[k])) && Durable(Tiered(st, 0, 1), k) == Some(v)
  {
    var st, f, z := Straggling(files, next, l, left), File(next + 1, l), File(next, Merged(Layers(files), true));
    StragglingShows(files, next, l, left, k);
    StragglingNumbered(files, next, l, left);
    StragglerHolds(files, k, v);
    assert st.open[0..2] == [f, files[0]];
    assert files[0] in files && f in st.open[0..2];
    NewestIsFlushed(files, next, l, left);
    StragglerWins(st, 0, 1, z, k);
    LeadsStraggling(files, next, l, left);
    LeadsStart(Opening(files, next), st, 0, 1);
    LeadsCommit(Opening(files, next), st.(job := RunJob(st.open, 0, 1)));
  }

  /** Only the output is left; the list still has the readers of all inputs. */
  function Emptied(files: seq<File>, next: nat): (st: Store) {
    Store([File(next, Merged(Layers(files), true))], files, next + 1, NoJob)
  }

  lemma EmptiedIs(files: seq<File>, next: nat)
    requires Fit(files, next)
    ensures Aborted(FullStarted(files, files, next, next + 1), 0) == Emptied(files, next)
  {
    var st := FullStarted(files, files, next, next + 1);
    assert files[0..] == files;
    CommitReplaces(st, 0);
    forall g ensures g in Committing(st, 0) <==> g in Emptied(files, next).disk {
    }
    SameFiles(Committing(st, 0), Emptied(files, next).disk);
  }

  lemma LeadsEmptied(files: seq<File>, next: nat)
    requires Fit(files, next)
    ensures Leads(Opening(files, next), Emptied(files, next))
  {
    LeadsFullStarted(files, next);
    EmptiedIs(files, next);
    LeadsAbort(Opening(files, next), FullStarted(files, files, next, next + 1), 0);
  }

  /** A key that was deleted long before comes back, if a full compaction fails after its unlinks
      and a partial one of older readers runs before a reload. */
  lemma DeletedReturns(files: seq<File>, next: nat, i: nat, j: nat, k: Key, v: Bytes)
    requires Fit(files, next) && i < j < |files| && View(Layers(files), k) == None
    requires Find(Layers(files[i..j + 1]), 0, k) == Some(Data(v))
    ensures var st := Emptied(files, next);
            && Leads(Opening(files, next), st) && Leads(Opening(files, next), Tiered(st, i, j))
            && Live(st, k) == Durable(st, k) == None && Durable(Tiered(st, i, j), k) == Some(v)
  {
    var st := Emptied(files, next);
    MergedFinds(Layers(files), true, k);
    FindOne(st.disk[0].layer, k);
    assert Layers(st.disk) == [st.disk[0].layer];
    ReadersReturn(st, i, j, k, v);
    LeadsEmptied(files, next);
    LeadsStart(Opening(files, next), st, i, j);
    LeadsCommit(Opening(files, next), st.(job := RunJob(st.open, i, j)));
  }
}
