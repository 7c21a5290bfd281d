/** What a restart rebuilds (src/storage/engine.rs, memtable.rs): the surviving WAL records
    replayed into a fresh memtable, over the SSTs on disk.

    A history is the sequence of memtable updates, in the order they were applied.  One update
    is what the memtable takes under one acquisition of its lock: a put, a delete, or all the
    puts of a batch; a batch with deletes is several updates.  A WAL record covers all the
    updates of one operation. */
module Recovery {
  import opened Basics
  import opened Lsm

  /** The updates `h[i..j]`, later ones on top. */
  function Overlay(h: seq<Layer>, i: nat, j: nat): (l: Layer)
    requires i <= j <= |h|
    decreases j - i
  {
    if i == j then map[] else Overlay(h, i, j - 1) + h[j - 1]
  }

  lemma Stacked(a: Layer, b: Layer, c: Layer)
    ensures a + (b + c) == (a + b) + c
  {
  }

  lemma {:induction false} OverlaySplit(h: seq<Layer>, i: nat, m: nat, j: nat)
    requires i <= m <= j <= |h|
    ensures Overlay(h, i, j) == Overlay(h, i, m) + Overlay(h, m, j)
    decreases j - m
  {
    if m < j {
      OverlaySplit(h, i, m, j - 1);
      Stacked(Overlay(h, i, m), Overlay(h, m, j - 1), h[j - 1]);
    }
  }

  lemma {:induction false} OverlayExtend(h: seq<Layer>, l: Layer, i: nat, j: nat)
    requires i <= j <= |h|
    ensures Overlay(h + [l], i, j) == Overlay(h, i, j)
    decreases j - i
  {
    if i < j {
      OverlayExtend(h, l, i, j - 1);
      assert (h + [l])[j - 1] == h[j - 1];
    }
  }

  /** A layer over an older value. */
  function Over(l: Layer, v: Option<Bytes>, k: Key): (r: Option<Bytes>) {
    if k in l then Visible(Some(l[k])) else v
  }

  lemma ViewOver(l: Layer, ssts: seq<Layer>, k: Key)
    ensures View([l] + ssts, k) == Over(l, View(ssts, k), k)
  {
    FindAppend([l], ssts, k);
    FindOne(l, k);
  }

  /** The value of `k` after the first `n` updates, on a store that held `disk` before. */
  function Value(disk: seq<Layer>, h: seq<Layer>, n: nat, k: Key): (v: Option<Bytes>)
    requires n <= |h|
  {
    Over(Overlay(h, 0, n), View(disk, k), k)
  }

  // ----- Replay

  /** A replay that reaches at least as far as the SSTs rebuilds a state of the history. */
  lemma ReplayAhead(disk: seq<Layer>, h: seq<Layer>, r: nat, s: nat, p: nat, k: Key)
    requires r <= s <= p <= |h|
    ensures Over(Overlay(h, r, p), Value(disk, h, s, k), k) == Value(disk, h, p, k)
  {
    OverlaySplit(h, 0, s, p);
    OverlaySplit(h, r, s, p);
    OverlaySplit(h, 0, r, s);
  }

  /** One that ends before them mixes two states: the keys it touches come from the earlier
      one, all others from the later one. */
  lemma ReplayBehind(disk: seq<Layer>, h: seq<Layer>, r: nat, p: nat, s: nat, k: Key)
    requires r <= p <= s <= |h|
    ensures Over(Overlay(h, r, p), Value(disk, h, s, k), k) ==
            if k in Overlay(h, r, p) then Value(disk, h, p, k) else Value(disk, h, s, k)
  {
    OverlaySplit(h, 0, r, p);
  }

  /** Either way every key has a value it had after `min(p, s)` updates or later. */
  lemma ReplayedValue(disk: seq<Layer>, h: seq<Layer>, r: nat, p: nat, s: nat, k: Key)
    requires r <= p <= |h| && r <= s <= |h|
    ensures var v := Over(Overlay(h, r, p), Value(disk, h, s, k), k);
            v == Value(disk, h, p, k) || (p < s && v == Value(disk, h, s, k))
  {
    if s <= p { ReplayAhead(disk, h, r, s, p, k); } else { ReplayBehind(disk, h, r, p, s, k); }
  }

  // ----- When a restart lands on a state between two operations

  ghost predicate SameAsPrefix(disk: seq<Layer>, h: seq<Layer>, r: nat, p: nat, s: nat, q: nat)
    requires r <= p <= |h| && s <= |h| && q <= |h|
  {
    forall k: Key :: Over(Overlay(h, r, p), Value(disk, h, s, k), k) == Value(disk, h, q, k)
  }

  /** `bounds` are the update counts at which an operation ends. */
  ghost predicate Lands(disk: seq<Layer>, h: seq<Layer>, r: nat, p: nat, s: nat, bounds: set<nat>)
    requires r <= p <= |h| && s <= |h|
  {
    exists q :: q in bounds && q <= |h| && SameAsPrefix(disk, h, r, p, s, q)
  }

  const KEY: Key := [0]
  const OTHER: Key := [1]

  /** `KEY` alone for the first `p` updates, then both keys together, with the value `w`. */
  function Skewed(n: nat, p: nat, w: Bytes): (h: seq<Layer>) {
    seq(n, i => if i < p then map[KEY := Data([])] else map[KEY := Data([1]), OTHER := Data(w)])
  }

  lemma {:induction false} SkewedEarly(n: nat, p: nat, w: Bytes, i: nat, j: nat)
    requires i <= j <= p <= n
    ensures Overlay(Skewed(n, p, w), i, j) == if i == j then map[] else map[KEY := Data([])]
    decreases j - i
  {
    if i < j {
      SkewedEarly(n, p, w, i, j - 1);
      assert Skewed(n, p, w)[j - 1] == map[KEY := Data([])];
    }
  }

  lemma {:induction false} SkewedLate(n: nat, p: nat, w: Bytes, i: nat, j: nat)
    requires i <= p < j <= n
    ensures Overlay(Skewed(n, p, w), i, j) == map[KEY := Data([1]), OTHER := Data(w)]
    decreases j - p
  {
    assert Skewed(n, p, w)[j - 1] == map[KEY := Data([1]), OTHER := Data(w)];
    if j - 1 == p { SkewedEarly(n, p, w, i, p); } else { SkewedLate(n, p, w, i, j - 1); }
  }

  /** A non-empty replay behind the SSTs can tear an operation apart. */
  lemma SkewedNeverLands(disk: seq<Layer>, n: nat, r: nat, p: nat, s: nat, w: Bytes, bounds: set<nat>)
    requires r < p < s <= n && View(disk, OTHER) != Some(w)
    ensures !Lands(disk, Skewed(n, p, w), r, p, s, bounds)
  {
    var h := Skewed(n, p, w);
    SkewedEarly(n, p, w, r, p);
    SkewedLate(n, p, w, 0, s);
    assert Over(Overlay(h, r, p), Value(disk, h, s, KEY), KEY) == Some([]);
    assert Over(Overlay(h, r, p), Value(disk, h, s, OTHER), OTHER) == Some(w);
    forall q: nat | q <= n ensures !SameAsPrefix(disk, h, r, p, s, q) {
      if q <= p { SkewedEarly(n, p, w, 0, q); } else { SkewedLate(n, p, w, 0, q); }
    }
  }

  /** Update `i` writes a value of length `b + i`. */
  function Counting(n: nat, b: nat): (h: seq<Layer>) {
    seq(n, i requires 0 <= i => map[KEY := Data(seq(b + i, _ => 0))])
  }

  lemma CountingAt(n: nat, b: nat, j: nat)
    requires 0 < j <= n
    ensures Overlay(Counting(n, b), 0, j) == Overlay(Counting(n, b), 0, j - 1) + map[KEY := Data(seq(b + j - 1, _ => 0))]
  {
    assert Counting(n, b)[j - 1] == map[KEY := Data(seq(b + j - 1, _ => 0))];
  }

  /** The value at hand is shorter than `b`. */
  predicate Shorter(v: Option<Bytes>, b: nat) {
    v.Some? ==> |v.value| < b
  }

  lemma CountingDiffers(disk: seq<Layer>, n: nat, b: nat, q: nat, s: nat)
    requires q <= n && 0 < s <= n && q != s && Shorter(View(disk, KEY), b)
    ensures Value(disk, Counting(n, b), q, KEY) != Value(disk, Counting(n, b), s, KEY)
  {
    CountingAt(n, b, s);
    assert |Value(disk, Counting(n, b), s, KEY).value| == b + s - 1;
    if q > 0 {
      CountingAt(n, b, q);
      assert |Value(disk, Counting(n, b), q, KEY).value| == b + q - 1;
    }
  }

  /** An SST cut inside an operation stays cut when no record is replayed. */
  lemma CountingNeverLands(disk: seq<Layer>, n: nat, b: nat, p: nat, s: nat, bounds: set<nat>)
    requires p < s <= n && s !in bounds && Shorter(View(disk, KEY), b)
    ensures !Lands(disk, Counting(n, b), p, p, s, bounds)
  {
    var h := Counting(n, b);
    forall q: nat | q in bounds && q <= n ensures !SameAsPrefix(disk, h, p, p, s, q) {
      CountingDiffers(disk, n, b, q, s);
      assert Over(Overlay(h, p, p), Value(disk, h, s, KEY), KEY) == Value(disk, h, s, KEY);
    }
  }

  /** A replay that reaches the SSTs lands. */
  lemma AheadLands(disk: seq<Layer>, h: seq<Layer>, r: nat, p: nat, s: nat, bounds: set<nat>)
    requires r <= s <= p <= |h| && p in bounds
    ensures Lands(disk, h, r, p, s, bounds)
  {
    forall k: Key ensures Over(Overlay(h, r, p), Value(disk, h, s, k), k) == Value(disk, h, p, k) {
      ReplayAhead(disk, h, r, s, p, k);
    }
    assert SameAsPrefix(disk, h, r, p, s, p);
  }

  /** The state after a restart is one between two operations, whatever was written and whatever
      was on disk before, exactly when the replay reaches as far as the SSTs, or there is no record
      to replay and the SSTs end with an operation.  The WAL segment starts at `r` and is read up
      to `p`; the SSTs hold `s` updates. */
  lemma AtomicIff(disk: seq<Layer>, n: nat, r: nat, p: nat, s: nat, bounds: set<nat>)
    requires r <= p <= n && r <= s <= n && p in bounds
    ensures (forall h: seq<Layer> | |h| == n :: Lands(disk, h, r, p, s, bounds)) <==>
            s <= p || (r == p && s in bounds)
  {
    if s <= p {
      forall h: seq<Layer> | |h| == n ensures Lands(disk, h, r, p, s, bounds) {
        AheadLands(disk, h, r, p, s, bounds);
      }
    } else if r < p {
      var w: Bytes := if View(disk, OTHER) == Some([]) then [1] else [];
      SkewedNeverLands(disk, n, r, p, s, w, bounds);
      assert |Skewed(n, p, w)| == n;
    } else if s in bounds {
      forall h: seq<Layer> | |h| == n ensures Lands(disk, h, r, p, s, bounds) {
        assert SameAsPrefix(disk, h, r, p, s, s);
      }
    } else {
      var b := if View(disk, KEY).Some? then |View(disk, KEY).value| + 1 else 0;
      CountingNeverLands(disk, n, b, p, s, bounds);
      assert |Counting(n, b)| == n;
    }
  }

  /** The torn batch: the operation after the replayed ones is in the SSTs; its keys that an
      earlier replayed record also wrote come back old, the others new. */
  lemma TornBatch(disk: seq<Layer>, h: seq<Layer>, r: nat, p: nat, a: Key, b: Key)
    requires r <= p < |h| && a in h[p] && b in h[p]
    requires a in Overlay(h, r, p) && b !in Overlay(h, r, p)
    ensures Over(Overlay(h, r, p), Value(disk, h, p + 1, a), a) == Value(disk, h, p, a)
    ensures Over(Overlay(h, r, p), Value(disk, h, p + 1, b), b) == Visible(Some(h[p][b]))
  {
    ReplayBehind(disk, h, r, p, p + 1, a);
  }
}
