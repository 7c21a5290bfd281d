/** The records of one WAL segment as a restart reads them (`scan_records` and
    `probe_survivors` in src/storage/wal.rs).

    A frame is a whole record, or the bytes of one that a fault or a crash cut short.  A record
    is sealed under its number in the segment, so it opens only where that number is expected. */
module Segment {

  datatype Frame = Record(num: nat, op: nat) | Torn

  /** Refused: the segment is left as it is and the process does not start. */
  datatype Opening = Refused | Opened(count: nat)

  const SURVIVOR_PROBE_RECORD_WINDOW := 32

  /** A whole record behind the frame at `i`, with a number just past the expected one. */
  predicate Survives(f: seq<Frame>, i: nat, j: nat) {
    i < j < |f| && f[j].Record? && i < f[j].num <= i + SURVIVOR_PROBE_RECORD_WINDOW
  }

  function Scan(f: seq<Frame>, i: nat): (o: Opening)
    requires i <= |f|
    decreases |f| - i
  {
    if i == |f| then Opened(i)
    else if f[i].Torn? then (if exists j | i < j < |f| :: Survives(f, i, j) then Refused else Opened(i))
    else if f[i].num == i then Scan(f, i + 1)
    else Refused
  }

  method ProbeSurvivors(f: seq<Frame>, i: nat) returns (found: bool)
    requires i < |f|
    ensures found <==> exists j | i < j < |f| :: Survives(f, i, j)
  {
    found := false;
    var j := i + 1;
    while j < |f|
      invariant i < j <= |f|
      invariant forall m | i < m < j :: !Survives(f, i, m)
    {
      if f[j].Record? && i < f[j].num <= i + SURVIVOR_PROBE_RECORD_WINDOW {
        assert Survives(f, i, j);
        return true;
      }
      j := j + 1;
    }
  }

  method ScanRecords(f: seq<Frame>) returns (o: Opening)
    ensures o == Scan(f, 0)
  {
    var i := 0;
    while i < |f|
      invariant i <= |f|
      invariant Scan(f, 0) == Scan(f, i)
    {
      if f[i].Torn? {
        var found := ProbeSurvivors(f, i);
        return if found then Refused else Opened(i);
      }
      if f[i].num != i { return Refused; }
      i := i + 1;
    }
    return Opened(i);
  }

  /** The first `g` frames are records in order, each under its own number. */
  predicate Numbered(f: seq<Frame>, g: nat) {
    g <= |f| && forall i | 0 <= i < g :: f[i].Record? && f[i].num == i
  }

  lemma {:induction false} ScanNumbered(f: seq<Frame>, g: nat, i: nat)
    requires Numbered(f, g) && i <= g
    ensures Scan(f, i) == Scan(f, g)
    decreases g - i
  {
    if i < g { ScanNumbered(f, g, i + 1); }
  }

  lemma {:induction false} ScanFrom(f: seq<Frame>, i: nat)
    requires i <= |f| && Numbered(f, i) && Scan(f, i).Opened?
    ensures i <= Scan(f, i).count && Numbered(f, Scan(f, i).count)
    decreases |f| - i
  {
    if i < |f| && f[i].Record? { ScanFrom(f, i + 1); }
  }

  /** What is replayed is a run of records under their own numbers, and it misses none of a
      numbered prefix. */
  lemma ScanOpened(f: seq<Frame>, g: nat)
    requires Numbered(f, g) && Scan(f, 0).Opened?
    ensures g <= Scan(f, 0).count && Numbered(f, Scan(f, 0).count)
  {
    ScanNumbered(f, g, 0);
    ScanFrom(f, g);
  }

  /** The scan, for every segment: it opens with `c` records exactly when these come first, each under
      its own number, and then the segment ends, or a cut record follows and behind it no whole one
      whose number is among the next 32. */
  lemma ScanIff(f: seq<Frame>, c: nat)
    ensures Scan(f, 0) == Opened(c) <==>
            && Numbered(f, c)
            && (c == |f| || (f[c] == Torn && forall j | c < j < |f| && f[j].Record? :: !(c < f[j].num <= c + 32)))
  {
    if Numbered(f, c) {
      ScanNumbered(f, c, 0);
      if c < |f| && f[c].Record? && f[c].num == c && Scan(f, c + 1).Opened? {
        ScanFrom(f, c + 1);
      }
      if c < |f| && f[c] == Torn { TornIff(f, c); }
    }
    if Scan(f, 0).Opened? { ScanFrom(f, 0); }
  }

  lemma TornIff(f: seq<Frame>, c: nat)
    requires c < |f| && f[c] == Torn
    ensures Scan(f, c) == Opened(c) <==> forall j | c < j < |f| && f[j].Record? :: !(c < f[j].num <= c + 32)
  {
    if Scan(f, c) == Opened(c) {
      forall j | c < j < |f| && f[j].Record? ensures !(c < f[j].num <= c + 32) { assert !Survives(f, c, j); }
    }
  }

  /** What a crash leaves of `f`: `c` whole frames, perhaps the start of the next. */
  function Cut(f: seq<Frame>, c: nat, torn: bool): (r: seq<Frame>)
    requires c <= |f|
  {
    f[..c] + (if torn then [Torn] else [])
  }

  /** Records in order with at most a cut one behind them: every crash leaves a segment that
      opens, with every whole record in front of the cut. */
  predicate Tidy(f: seq<Frame>, g: nat) {
    Numbered(f, g) && (|f| == g || (|f| == g + 1 && f[g].Torn?))
  }

  lemma TidyOpens(f: seq<Frame>, g: nat)
    requires Tidy(f, g)
    ensures Scan(f, 0) == Opened(g)
  {
    ScanNumbered(f, g, 0);
  }

  lemma TidyCutOpens(f: seq<Frame>, g: nat, c: nat, torn: bool)
    requires Tidy(f, g) && c <= |f| && (torn ==> c < |f|)
    ensures Scan(Cut(f, c, torn), 0) == Opened(if c < g then c else g)
  {
    var n := if c < g then c else g;
    TidyOpens(Cut(f, c, torn), n);
  }

  // ----- A batch written behind a failed one

  /** The frames of a batch: `n` records from number `num` on, for operations from `op` on. */
  function Frames(num: nat, op: nat, n: nat): (f: seq<Frame>) {
    seq(n, i requires 0 <= i => Record(num + i, op + i))
  }

  /** A batch written behind `g` records, and perhaps a cut one, makes the segment unreadable
      for good exactly when record numbers were skipped without a cut record to mark the place,
      or at most 32 were skipped behind a cut one. */
  lemma LateRefusedIff(f: seq<Frame>, g: nat, num: nat, late: seq<Frame>)
    requires Tidy(f, g) && |f| <= num
    requires late != [] && forall i | 0 <= i < |late| :: late[i].Record? && late[i].num == num + i
    ensures |f| == g ==> (Scan(f + late, 0) == Refused <==> num != g)
    ensures |f| > g ==> (Scan(f + late, 0) == Refused <==> num <= g + 32)
  {
    var all := f + late;
    assert forall i | 0 <= i < g :: all[i] == f[i];
    ScanNumbered(all, g, 0);
    assert all[|f|] == late[0];
    if |f| == g {
      if num == g { NumberedOpens(all, g, late); }
    } else if num <= g + SURVIVOR_PROBE_RECORD_WINDOW {
      assert all[g] == Torn && Survives(all, g, g + 1);
    } else {
      assert all[g] == Torn;
      forall j | g < j < |all| ensures !Survives(all, g, j) {
        assert all[j] == late[j - g - 1];
      }
    }
  }

  lemma NumberedOpens(all: seq<Frame>, g: nat, late: seq<Frame>)
    requires Numbered(all, g) && |all| == g + |late|
    requires forall i | 0 <= i < |late| :: all[g + i] == late[i] && late[i].Record? && late[i].num == g + i
    ensures Scan(all, g) == Opened(|all|)
  {
    assert forall i | g <= i < |all| :: all[i] == late[i - g];
    ScanNumbered(all, |all|, g);
  }
}
