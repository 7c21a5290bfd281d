/** The streaming merge of sorted sources (src/storage/key_merge.rs): it visits, in key
    order, exactly the entries that reads of the layered store would see. */
module KeyMerge {
  import opened Basics
  import opened Lsm

  /** The order of the keys. */
  type Order = (Key, Key) -> bool

  ghost predicate StrictTotal(lt: Order) {
    && (forall a: Key {:trigger lt(a, a)} :: !lt(a, a))
    && (forall a: Key, b: Key, c: Key {:trigger lt(a, b), lt(b, c)} :: lt(a, b) && lt(b, c) ==> lt(a, c))
    && (forall a: Key, b: Key {:trigger lt(a, b)} :: a == b || lt(a, b) || lt(b, a))
  }

  /** Byte-wise order, from position `i` on. */
  predicate BytesBefore(a: Key, b: Key, i: nat)
    requires i <= |a| && i <= |b|
    decreases |a| - i
  {
    if i == |a| then i < |b|
    else i < |b| && (a[i] < b[i] || (a[i] == b[i] && BytesBefore(a, b, i + 1)))
  }

  const BY_BYTES: Order := (a: Key, b: Key) => BytesBefore(a, b, 0)

  lemma {:induction false} BeforeIrreflexive(a: Key, i: nat)
    requires i <= |a|
    ensures !BytesBefore(a, a, i)
    decreases |a| - i
  {
    if i < |a| { BeforeIrreflexive(a, i + 1); }
  }

  lemma {:induction false} BeforeTransitive(a: Key, b: Key, c: Key, i: nat)
    requires i <= |a| && i <= |b| && i <= |c|
    requires BytesBefore(a, b, i) && BytesBefore(b, c, i)
    ensures BytesBefore(a, c, i)
    decreases |a| - i
  {
    if i < |a| && a[i] == b[i] && b[i] == c[i] { BeforeTransitive(a, b, c, i + 1); }
  }

  lemma {:induction false} BeforeTotal(a: Key, b: Key, i: nat)
    requires i <= |a| && i <= |b| && a[..i] == b[..i]
    ensures a == b || BytesBefore(a, b, i) || BytesBefore(b, a, i)
    decreases |a| - i
  {
    if i < |a| && i < |b| && a[i] == b[i] {
      assert a[..i + 1] == a[..i] + [a[i]] && b[..i + 1] == b[..i] + [b[i]];
      BeforeTotal(a, b, i + 1);
    } else if i == |a| && i == |b| {
      assert a == a[..i] && b == b[..i];
    }
  }

  /** `a` is a proper prefix of `b`, or has the smaller byte where they first differ. */
  predicate ComesBefore(a: Key, b: Key, n: nat) {
    n <= |a| && n < |b| && a[..n] == b[..n] && (n == |a| || a[n] < b[n])
  }

  lemma {:induction false} BeforeIff(a: Key, b: Key, i: nat)
    requires i <= |a| && i <= |b| && a[..i] == b[..i]
    ensures BytesBefore(a, b, i) <==> exists n :: i <= n && ComesBefore(a, b, n)
    decreases |a| - i
  {
    if i < |a| && i < |b| && a[i] == b[i] {
      assert a[..i + 1] == a[..i] + [a[i]] && b[..i + 1] == b[..i] + [b[i]];
      BeforeIff(a, b, i + 1);
      assert !ComesBefore(a, b, i);
    } else {
      assert BytesBefore(a, b, i) <==> ComesBefore(a, b, i);
      forall n | i < n ensures !ComesBefore(a, b, n) { if ComesBefore(a, b, n) { SameUpTo(a, b, i, n); } }
    }
  }

  lemma SameUpTo(a: Key, b: Key, i: nat, n: nat)
    requires i < n && ComesBefore(a, b, n)
    ensures i < |a| && i < |b| && a[i] == b[i]
  {
    assert a[i] == a[..n][i] && b[i] == b[..n][i];
  }

  lemma ByBytesIff(a: Key, b: Key)
    ensures BY_BYTES(a, b) <==> exists n :: 0 <= n && ComesBefore(a, b, n)
  {
    assert a[..0] == b[..0];
    BeforeIff(a, b, 0);
  }

  /** The order of byte strings is a strict total order. */
  lemma ByBytesTotal()
    ensures StrictTotal(BY_BYTES)
  {
    forall a: Key ensures !BY_BYTES(a, a) { BeforeIrreflexive(a, 0); }
    forall a: Key, b: Key, c: Key | BY_BYTES(a, b) && BY_BYTES(b, c) ensures BY_BYTES(a, c) {
      BeforeTransitive(a, b, c, 0);
    }
    forall a: Key, b: Key ensures a == b || BY_BYTES(a, b) || BY_BYTES(b, a) {
      BeforeTotal(a, b, 0);
    }
  }

  /** A sorted source, as a cursor walks over it. */
  type Source = seq<(Key, Entry)>

  predicate Sorted(s: Source, lt: Order) {
    forall i, j | 0 <= i < j < |s| :: lt(s[i].0, s[j].0)
  }

  /** `s` lists the entries of `l`. */
  predicate Lists(s: Source, l: Layer) {
    && (forall i | 0 <= i < |s| :: s[i].0 in l && l[s[i].0] == s[i].1)
    && (forall k | k in l :: exists i :: 0 <= i < |s| && s[i].0 == k)
  }

  /** `k` is not after `last`. */
  predicate UpTo(k: Key, last: Option<Key>, lt: Order) {
    last.Some? && !lt(last.value, k)
  }

  /** `p` is the first position of `s` past all keys up to and including `last`. */
  predicate Past(s: Source, p: nat, last: Option<Key>, lt: Order) {
    && p <= |s|
    && (forall i | 0 <= i < p :: UpTo(s[i].0, last, lt))
    && (forall i | p <= i < |s| :: last.Some? ==> lt(last.value, s[i].0))
  }

  ghost predicate Setup(sources: seq<Source>, layers: seq<Layer>, lt: Order) {
    && StrictTotal(lt) && |sources| == |layers|
    && (forall i | 0 <= i < |sources| :: Sorted(sources[i], lt) && Lists(sources[i], layers[i]))
  }

  predicate AllPast(sources: seq<Source>, pos: seq<nat>, last: Option<Key>, lt: Order) {
    |pos| == |sources| && forall i | 0 <= i < |sources| :: Past(sources[i], pos[i], last, lt)
  }

  /** The entry a merge puts out for `k`: the newest one, unless it is a dropped tombstone. */
  function Wanted(layers: seq<Layer>, k: Key, drop: bool): (e: Option<Entry>) {
    var e := Find(layers, 0, k);
    if drop && e == Some(Tombstone) then None else e
  }

  /** What has been put out: the wanted entries with keys up to `last`, in order. */
  ghost predicate Emitted(out: Source, layers: seq<Layer>, last: Option<Key>, drop: bool, lt: Order) {
    && Sorted(out, lt)
    && (forall i | 0 <= i < |out| :: UpTo(out[i].0, last, lt) && Wanted(layers, out[i].0, drop) == Some(out[i].1))
    && (forall k: Key | UpTo(k, last, lt) && Wanted(layers, k, drop).Some? ::
          (k, Wanted(layers, k, drop).value) in out)
  }

  predicate HasHead(sources: seq<Source>, pos: seq<nat>, i: nat)
    requires |pos| == |sources| && i < |sources|
  {
    pos[i] < |sources[i]|
  }

  function Head(sources: seq<Source>, pos: seq<nat>, i: nat): (k: Key)
    requires |pos| == |sources| && i < |sources| && HasHead(sources, pos, i)
  {
    sources[i][pos[i]].0
  }

  /** `w` holds the smallest head among the first `n` sources, and the first of equal ones. */
  predicate Winner(sources: seq<Source>, pos: seq<nat>, w: nat, n: nat, lt: Order)
    requires |pos| == |sources| && n <= |sources|
  {
    && w < n && HasHead(sources, pos, w)
    && (forall i | 0 <= i < n && HasHead(sources, pos, i) :: !lt(Head(sources, pos, i), Head(sources, pos, w)))
    && (forall i | 0 <= i < w && HasHead(sources, pos, i) :: Head(sources, pos, i) != Head(sources, pos, w))
  }

  /** The search for the winner: strict comparison keeps the newest of equal keys. */
  method FindWinner(sources: seq<Source>, pos: seq<nat>, lt: Order) returns (w: Option<nat>)
    requires StrictTotal(lt) && |pos| == |sources|
    ensures w.Some? ==> Winner(sources, pos, w.value, |sources|, lt)
    ensures w.None? ==> forall i | 0 <= i < |sources| :: !HasHead(sources, pos, i)
  {
    w := None;
    for i := 0 to |sources|
      invariant w.Some? ==> Winner(sources, pos, w.value, i, lt)
      invariant w.None? ==> forall j | 0 <= j < i :: !HasHead(sources, pos, j)
    {
      if !HasHead(sources, pos, i) { continue; }
      if w.None? {
        w := Some(i);
      } else if lt(Head(sources, pos, i), Head(sources, pos, w.value)) {
        w := Some(i);
      }
    }
  }

  /** Every cursor whose head is `key` moves on; those before the winner never have it. */
  method AdvanceEqual(sources: seq<Source>, pos: seq<nat>, key: Key, w: nat) returns (next: seq<nat>)
    requires |pos| == |sources| && w < |sources|
    requires forall i | 0 <= i < w && HasHead(sources, pos, i) :: Head(sources, pos, i) != key
    ensures |next| == |pos|
    ensures forall i | 0 <= i < |pos| ::
              next[i] == if HasHead(sources, pos, i) && Head(sources, pos, i) == key then pos[i] + 1 else pos[i]
  {
    next := pos;
    for i := w to |sources|
      invariant |next| == |pos|
      invariant forall j | 0 <= j < i ::
                  next[j] == if HasHead(sources, pos, j) && Head(sources, pos, j) == key then pos[j] + 1 else pos[j]
      invariant forall j | i <= j < |pos| :: next[j] == pos[j]
    {
      if HasHead(sources, pos, i) && Head(sources, pos, i) == key {
        next := next[i := pos[i] + 1];
      }
    }
  }

  // ----- One turn of the merge

  /** With no entry between `last` and `key`, moving past `key` is moving over its head. */
  lemma PastNext(s: Source, p: nat, last: Option<Key>, key: Key, lt: Order)
    requires StrictTotal(lt) && Sorted(s, lt) && Past(s, p, last, lt)
    requires last.Some? ==> lt(last.value, key)
    requires p < |s| ==> !lt(s[p].0, key)
    ensures Past(s, if p < |s| && s[p].0 == key then p + 1 else p, Some(key), lt)
  {
    forall i | 0 <= i < p ensures !lt(key, s[i].0) {
      assert UpTo(s[i].0, last, lt);
    }
    if p < |s| {
      forall i | p < i < |s| ensures lt(key, s[i].0) {
        assert lt(s[p].0, s[i].0);
        assert s[p].0 == key || lt(key, s[p].0);
      }
    }
  }

  /** The winner's source is the newest that holds its key. */
  lemma NotInNewer(s: Source, l: Layer, p: nat, last: Option<Key>, key: Key, lt: Order)
    requires StrictTotal(lt) && Sorted(s, lt) && Lists(s, l) && Past(s, p, last, lt)
    requires last.Some? ==> lt(last.value, key)
    requires p < |s| ==> !lt(s[p].0, key) && s[p].0 != key
    ensures key !in l
  {
    forall i | 0 <= i < |s| ensures s[i].0 != key {
      if i < p {
        assert UpTo(s[i].0, last, lt);
      } else {
        assert i == p || lt(s[p].0, s[i].0);
        assert lt(key, s[p].0);
      }
    }
  }

  /** No source holds a key between `last` and the winner's. */
  lemma NoneBetween(s: Source, l: Layer, p: nat, last: Option<Key>, key: Key, k: Key, lt: Order)
    requires StrictTotal(lt) && Sorted(s, lt) && Lists(s, l) && Past(s, p, last, lt)
    requires !UpTo(k, last, lt) && lt(k, key)
    requires p < |s| ==> !lt(s[p].0, key)
    ensures k !in l
  {
    forall i | 0 <= i < |s| ensures s[i].0 != k {
      if i >= p {
        assert i == p || lt(s[p].0, s[i].0);
        assert s[p].0 == key || lt(key, s[p].0);
      }
    }
  }

  lemma WinnerIsAhead(s: Source, p: nat, last: Option<Key>, lt: Order)
    requires Past(s, p, last, lt) && p < |s|
    ensures last.Some? ==> lt(last.value, s[p].0)
  {
  }

  /** The winner's entry is what a read of its key finds. */
  lemma WinnerFound(sources: seq<Source>, layers: seq<Layer>, pos: seq<nat>, last: Option<Key>, w: nat, lt: Order)
    requires Setup(sources, layers, lt) && AllPast(sources, pos, last, lt)
    requires Winner(sources, pos, w, |sources|, lt)
    ensures Find(layers, 0, Head(sources, pos, w)) == Some(sources[w][pos[w]].1)
  {
    var key := Head(sources, pos, w);
    WinnerIsAhead(sources[w], pos[w], last, lt);
    forall i | 0 <= i < w ensures key !in layers[i] {
      if HasHead(sources, pos, i) { assert Head(sources, pos, i) != key; }
      NotInNewer(sources[i], layers[i], pos[i], last, key, lt);
    }
    FindAt(layers, 0, w, key);
  }

  lemma BetweenUnseen(sources: seq<Source>, layers: seq<Layer>, pos: seq<nat>, last: Option<Key>, w: nat, k: Key, lt: Order)
    requires Setup(sources, layers, lt) && AllPast(sources, pos, last, lt)
    requires Winner(sources, pos, w, |sources|, lt)
    requires !UpTo(k, last, lt) && lt(k, Head(sources, pos, w))
    ensures Find(layers, 0, k) == None
  {
    var key := Head(sources, pos, w);
    forall i | 0 <= i < |layers| ensures k !in layers[i] {
      if HasHead(sources, pos, i) { assert !lt(Head(sources, pos, i), key); }
      NoneBetween(sources[i], layers[i], pos[i], last, key, k, lt);
    }
    FindEmpty(layers, 0, k);
  }

  /** An entry behind all that has been put out keeps the order. */
  lemma SortedMore(out: Source, last: Option<Key>, key: Key, e: Entry, lt: Order)
    requires StrictTotal(lt) && Sorted(out, lt) && (last.Some? ==> lt(last.value, key))
    requires forall i | 0 <= i < |out| :: UpTo(out[i].0, last, lt)
    ensures Sorted(out + [(key, e)], lt)
    ensures forall i | 0 <= i < |out| :: UpTo(out[i].0, Some(key), lt)
  {
    forall i | 0 <= i < |out| ensures lt(out[i].0, key) {
      assert UpTo(out[i].0, last, lt);
    }
  }

  /** Of the keys up to the winner's, none is wanted but those put out and its own. */
  lemma EmitsAll(out: Source, sources: seq<Source>, layers: seq<Layer>, pos: seq<nat>,
                 last: Option<Key>, w: nat, drop: bool, lt: Order, k: Key)
    requires Setup(sources, layers, lt) && AllPast(sources, pos, last, lt) && Emitted(out, layers, last, drop, lt)
    requires Winner(sources, pos, w, |sources|, lt)
    requires UpTo(k, Some(Head(sources, pos, w)), lt) && Wanted(layers, k, drop).Some? && k != Head(sources, pos, w)
    ensures (k, Wanted(layers, k, drop).value) in out
  {
    if !UpTo(k, last, lt) { BetweenUnseen(sources, layers, pos, last, w, k, lt); }
  }

  /** Putting out the winner's entry, if it is wanted, extends what has been put out to it. */
  lemma EmitNext(out: Source, sources: seq<Source>, layers: seq<Layer>, pos: seq<nat>,
                 last: Option<Key>, w: nat, drop: bool, lt: Order)
    requires Setup(sources, layers, lt) && AllPast(sources, pos, last, lt) && Emitted(out, layers, last, drop, lt)
    requires Winner(sources, pos, w, |sources|, lt)
    ensures var key, e := Head(sources, pos, w), sources[w][pos[w]].1;
            Emitted(if drop && e.Tombstone? then out else out + [(key, e)], layers, Some(key), drop, lt)
  {
    var key, e := Head(sources, pos, w), sources[w][pos[w]].1;
    var more := if drop && e.Tombstone? then out else out + [(key, e)];
    WinnerIsAhead(sources[w], pos[w], last, lt);
    WinnerFound(sources, layers, pos, last, w, lt);
    SortedMore(out, last, key, e, lt);
    forall k: Key | UpTo(k, Some(key), lt) && Wanted(layers, k, drop).Some?
      ensures (k, Wanted(layers, k, drop).value) in more
    {
      if k != key { EmitsAll(out, sources, layers, pos, last, w, drop, lt, k); }
    }
  }

  lemma PastAll(sources: seq<Source>, pos: seq<nat>, next: seq<nat>, last: Option<Key>, w: nat, lt: Order)
    requires StrictTotal(lt) && (forall i | 0 <= i < |sources| :: Sorted(sources[i], lt))
    requires AllPast(sources, pos, last, lt) && Winner(sources, pos, w, |sources|, lt)
    requires |next| == |pos|
    requires var key := Head(sources, pos, w);
             forall i | 0 <= i < |pos| ::
               next[i] == if HasHead(sources, pos, i) && Head(sources, pos, i) == key then pos[i] + 1 else pos[i]
    ensures AllPast(sources, next, Some(Head(sources, pos, w)), lt)
  {
    var key := Head(sources, pos, w);
    WinnerIsAhead(sources[w], pos[w], last, lt);
    forall i | 0 <= i < |sources| ensures Past(sources[i], next[i], Some(key), lt) {
      if HasHead(sources, pos, i) { assert !lt(Head(sources, pos, i), key); }
      PastNext(sources[i], pos[i], last, key, lt);
    }
  }

  /** When every source is exhausted, every key has been passed. */
  lemma AllPassed(sources: seq<Source>, layers: seq<Layer>, pos: seq<nat>, last: Option<Key>, lt: Order, k: Key)
    requires Setup(sources, layers, lt) && AllPast(sources, pos, last, lt)
    requires forall i | 0 <= i < |sources| :: !HasHead(sources, pos, i)
    requires Find(layers, 0, k).Some?
    ensures UpTo(k, last, lt)
  {
    if !UpTo(k, last, lt) {
      forall i | 0 <= i < |layers| ensures k !in layers[i] {
        assert Lists(sources[i], layers[i]) && Past(sources[i], pos[i], last, lt);
        assert !HasHead(sources, pos, i);
        assert forall j | 0 <= j < |sources[i]| :: UpTo(sources[i][j].0, last, lt);
      }
      FindEmpty(layers, 0, k);
    }
  }

  function Unread(sources: seq<Source>, pos: seq<nat>, i: nat): (n: int)
    requires |pos| == |sources| && i <= |sources|
  {
    if i == 0 then 0 else Unread(sources, pos, i - 1) + |sources[i - 1]| - pos[i - 1]
  }

  lemma {:induction false} UnreadDrops(sources: seq<Source>, pos: seq<nat>, next: seq<nat>, w: nat, i: nat)
    requires |pos| == |sources| == |next| && i <= |sources| && w < |sources|
    requires forall j | 0 <= j < |pos| :: pos[j] <= next[j] <= |sources[j]|
    requires pos[w] < next[w]
    ensures 0 <= Unread(sources, next, i) <= Unread(sources, pos, i)
    ensures w < i ==> Unread(sources, next, i) < Unread(sources, pos, i)
  {
    if i > 0 { UnreadDrops(sources, pos, next, w, i - 1); }
  }

  /** `visit_merged_entries` with a visitor that never breaks.  The output lists, in strictly
      increasing key order, the newest entry of every key, without the dropped tombstones. */
  method Merge(sources: seq<Source>, ghost layers: seq<Layer>, drop: bool, lt: Order) returns (out: Source)
    requires Setup(sources, layers, lt)
    ensures Sorted(out, lt)
    ensures forall k: Key, e: Entry :: (k, e) in out <==> Wanted(layers, k, drop) == Some(e)
    ensures drop ==> forall k: Key :: (k, Tombstone) !in out && forall v: Bytes :: (k, Data(v)) in out <==> View(layers, k) == Some(v)
  {
    out := [];
    var pos: seq<nat> := seq(|sources|, _ => 0);
    ghost var last: Option<Key> := None;
    while true
      invariant AllPast(sources, pos, last, lt) && Emitted(out, layers, last, drop, lt)
      decreases Unread(sources, pos, |sources|)
    {
      var w := FindWinner(sources, pos, lt);
      if w.None? { break; }
      var key, e := Head(sources, pos, w.value), sources[w.value][pos[w.value]].1;
      var next := AdvanceEqual(sources, pos, key, w.value);
      EmitNext(out, sources, layers, pos, last, w.value, drop, lt);
      PastAll(sources, pos, next, last, w.value, lt);
      UnreadDrops(sources, pos, next, w.value, |sources|);
      if !(drop && e.Tombstone?) { out := out + [(key, e)]; }
      pos, last := next, Some(key);
    }
    forall k: Key, e: Entry ensures (k, e) in out <==> Wanted(layers, k, drop) == Some(e) {
      if Wanted(layers, k, drop) == Some(e) { AllPassed(sources, layers, pos, last, lt, k); }
    }
  }

  // ----- The merge with a heap

  /** The first key that input `idx` has left. */
  datatype MergeHead = MergeHead(key: Key, idx: nat)

  /** What the heap gives first: the smallest key, and of equal ones the oldest input.  Inputs are
      numbered from the newest here; the code numbers them from the oldest. */
  predicate Above(a: MergeHead, b: MergeHead, lt: Order) {
    lt(a.key, b.key) || (a.key == b.key && a.idx > b.idx)
  }

  predicate OnTop(heap: set<MergeHead>, top: MergeHead, lt: Order) {
    top in heap && forall h | h in heap :: !Above(h, top, lt)
  }

  lemma AboveOrder(a: MergeHead, b: MergeHead, c: MergeHead, lt: Order)
    requires StrictTotal(lt)
    ensures !Above(a, a, lt) && !(Above(a, b, lt) && Above(b, a, lt))
    ensures Above(a, b, lt) && !Above(c, b, lt) ==> !Above(c, a, lt)
  {
  }

  lemma {:induction false} TopExists(heap: set<MergeHead>, lt: Order) returns (top: MergeHead)
    requires heap != {} && StrictTotal(lt)
    ensures OnTop(heap, top, lt)
    decreases heap
  {
    var some :| some in heap;
    var rest := heap - {some};
    AboveOrder(some, some, some, lt);
    if rest == {} {
      top := some;
      forall h | h in heap ensures !Above(h, some, lt) { assert h !in rest; }
    } else {
      var other := TopExists(rest, lt);
      AboveOrder(some, other, other, lt);
      top := if Above(some, other, lt) then some else other;
      forall h | h in heap ensures !Above(h, top, lt) {
        if h != some {
          assert h in rest;
          AboveOrder(some, other, h, lt);
        }
      }
    }
  }

  /** The heads of all inputs that are not exhausted. */
  function Heads(sources: seq<Source>, pos: seq<nat>): (heap: set<MergeHead>)
    requires |pos| == |sources|
  {
    set i | 0 <= i < |sources| && HasHead(sources, pos, i) :: MergeHead(Head(sources, pos, i), i)
  }

  /** `seed`: the first head of every input. */
  method Seed(sources: seq<Source>, pos: seq<nat>) returns (heap: set<MergeHead>)
    requires |pos| == |sources|
    ensures heap == Heads(sources, pos)
  {
    heap := {};
    for n := 0 to |sources|
      invariant heap == set h | h in Heads(sources, pos) && h.idx < n
    {
      SeedNext(sources, pos, n);
      if HasHead(sources, pos, n) { heap := heap + {MergeHead(Head(sources, pos, n), n)}; }
    }
    assert heap == Heads(sources, pos);
  }

  lemma SeedNext(sources: seq<Source>, pos: seq<nat>, n: nat)
    requires |pos| == |sources| && n < |sources|
    ensures (set h | h in Heads(sources, pos) && h.idx < n + 1) ==
            (set h | h in Heads(sources, pos) && h.idx < n)
            + if HasHead(sources, pos, n) then {MergeHead(Head(sources, pos, n), n)} else {}
  {
    var a := set h | h in Heads(sources, pos) && h.idx < n + 1;
    var b := (set h | h in Heads(sources, pos) && h.idx < n)
             + if HasHead(sources, pos, n) then {MergeHead(Head(sources, pos, n), n)} else {};
    forall h: MergeHead ensures h in a <==> h in b {
      InHeads(sources, pos, h);
    }
  }

  /** `BinaryHeap::pop`. */
  method Pop(heap: set<MergeHead>, lt: Order) returns (top: MergeHead, rest: set<MergeHead>)
    requires heap != {} && StrictTotal(lt)
    ensures OnTop(heap, top, lt) && rest == heap - {top}
  {
    ghost var some := TopExists(heap, lt);
    top :| top in heap && OnTop(heap, top, lt);
    rest := heap - {top};
  }

  /** The heads that have been popped, and what is left of the heap. */
  ghost predicate Popped(heap: set<MergeHead>, key: Key, equal: set<nat>, rest: set<MergeHead>) {
    && rest <= heap && (forall h | h in heap && h !in rest :: h.key == key && h.idx in equal)
    && (forall i | i in equal :: MergeHead(key, i) in heap && MergeHead(key, i) !in rest)
  }

  /** Pops the least key and every head that equals it. */
  method PopEqual(heap: set<MergeHead>, lt: Order) returns (key: Key, equal: set<nat>, rest: set<MergeHead>)
    requires heap != {} && StrictTotal(lt)
    ensures forall h | h in heap :: !lt(h.key, key)
    ensures equal != {}
    ensures equal == set h | h in heap && h.key == key :: h.idx
    ensures rest == set h | h in heap && h.key != key
  {
    var top;
    top, rest := Pop(heap, lt);
    key, equal := top.key, {top.idx};
    while rest != {}
      invariant Popped(heap, key, equal, rest) && equal != {}
      decreases rest
    {
      var peek, fewer := Pop(rest, lt);
      if peek.key != key {
        NoneEqual(heap, rest, key, top, peek, lt);
        break;
      }
      assert MergeHead(key, peek.idx) == peek;
      equal, rest := equal + {peek.idx}, fewer;
    }
    forall i ensures i in equal <==> exists h :: h in heap && h.key == key && h.idx == i {
      if i in equal { assert MergeHead(key, i) in heap; }
    }
  }

  /** Below a head with another key there is none with this one. */
  lemma NoneEqual(heap: set<MergeHead>, rest: set<MergeHead>, key: Key, top: MergeHead, peek: MergeHead, lt: Order)
    requires StrictTotal(lt) && OnTop(heap, top, lt) && top.key == key && rest <= heap && OnTop(rest, peek, lt) && peek.key != key
    ensures forall h | h in rest :: h.key != key
  {
    assert lt(key, peek.key) by { assert !Above(peek, top, lt); }
  }

  /** The inputs in `equal` move on, and their new heads go back into the heap. */
  method PopAndRepush(sources: seq<Source>, pos: seq<nat>, equal: set<nat>, rest: set<MergeHead>)
    returns (next: seq<nat>, heap: set<MergeHead>)
    requires |pos| == |sources| && forall i | i in equal :: i < |sources| && HasHead(sources, pos, i)
    requires rest == set h | h in Heads(sources, pos) && h.idx !in equal
    ensures |next| == |pos| && forall i | 0 <= i < |pos| :: next[i] == if i in equal then pos[i] + 1 else pos[i]
    ensures heap == Heads(sources, next)
  {
    next, heap := pos, rest;
    var left := equal;
    while left != {}
      invariant left <= equal && |next| == |pos|
      invariant forall i | 0 <= i < |pos| :: next[i] == if i in equal - left then pos[i] + 1 else pos[i]
      invariant heap == set h | h in Heads(sources, next) && h.idx !in left
      decreases left
    {
      var i :| i in left;
      ghost var before := next;
      next, left := next[i := next[i] + 1], left - {i};
      HeadsMoved(sources, before, next, i, left);
      if HasHead(sources, next, i) { heap := heap + {MergeHead(Head(sources, next, i), i)}; }
    }
  }

  lemma HeadsMoved(sources: seq<Source>, pos: seq<nat>, next: seq<nat>, i: nat, left: set<nat>)
    requires |pos| == |sources| && i < |pos| && i !in left && next == pos[i := pos[i] + 1]
    ensures (set h | h in Heads(sources, next) && h.idx !in left) ==
            (set h | h in Heads(sources, pos) && h.idx !in left + {i})
            + if HasHead(sources, next, i) then {MergeHead(Head(sources, next, i), i)} else {}
  {
    var a := set h | h in Heads(sources, next) && h.idx !in left;
    var b := (set h | h in Heads(sources, pos) && h.idx !in left + {i})
             + if HasHead(sources, next, i) then {MergeHead(Head(sources, next, i), i)} else {};
    forall h: MergeHead ensures h in a <==> h in b {
      InHeads(sources, next, h);
      InHeads(sources, pos, h);
      if h.idx < |pos| && h.idx != i { assert next[h.idx] == pos[h.idx]; }
    }
  }

  lemma InHeads(sources: seq<Source>, pos: seq<nat>, h: MergeHead)
    requires |pos| == |sources|
    ensures h in Heads(sources, pos) <==>
            h.idx < |sources| && HasHead(sources, pos, h.idx) && Head(sources, pos, h.idx) == h.key
  {
    if h.idx < |sources| && HasHead(sources, pos, h.idx) && Head(sources, pos, h.idx) == h.key {
      assert h == MergeHead(Head(sources, pos, h.idx), h.idx);
    }
  }

  /** The newest of the inputs. */
  method Newest(equal: set<nat>) returns (w: nat)
    requires equal != {}
    ensures w in equal && forall i | i in equal :: w <= i
  {
    w :| w in equal;
    var left := equal - {w};
    assert equal - left == {w};
    while left != {}
      invariant left <= equal && w in equal && forall i | i in equal - left :: w <= i
      decreases left
    {
      var i :| i in left;
      assert equal - (left - {i}) == (equal - left) + {i};
      if i < w { w := i; }
      left := left - {i};
    }
    assert equal - left == equal;
  }

  /** The newest input with the least key is the winner of the other merge. */
  lemma HeapWinner(sources: seq<Source>, pos: seq<nat>, key: Key, equal: set<nat>, w: nat, lt: Order)
    requires |pos| == |sources|
    requires forall h | h in Heads(sources, pos) :: !lt(h.key, key)
    requires equal == set h | h in Heads(sources, pos) && h.key == key :: h.idx
    requires w in equal && forall i | i in equal :: w <= i
    ensures Winner(sources, pos, w, |sources|, lt) && Head(sources, pos, w) == key
    ensures forall i | 0 <= i < |sources| :: i in equal <==> HasHead(sources, pos, i) && Head(sources, pos, i) == key
  {
    forall i | 0 <= i < |sources| && HasHead(sources, pos, i)
      ensures !lt(Head(sources, pos, i), key) && (Head(sources, pos, i) == key ==> i in equal)
    {
      var h := MergeHead(Head(sources, pos, i), i);
      assert h in Heads(sources, pos);
    }
  }

  lemma RestIs(sources: seq<Source>, pos: seq<nat>, key: Key, equal: set<nat>)
    requires |pos| == |sources| && equal == set h | h in Heads(sources, pos) && h.key == key :: h.idx
    ensures (set h | h in Heads(sources, pos) && h.key != key) == (set h | h in Heads(sources, pos) && h.idx !in equal)
  {
  }

  lemma NoHeads(sources: seq<Source>, pos: seq<nat>)
    requires |pos| == |sources| && Heads(sources, pos) == {}
    ensures forall i | 0 <= i < |sources| :: !HasHead(sources, pos, i)
  {
    if i :| 0 <= i < |sources| && HasHead(sources, pos, i) {
      InHeads(sources, pos, MergeHead(Head(sources, pos, i), i));
    }
  }

  /** `advance`: the winner of the other merge, and all inputs at its key moved on. */
  method Advance(sources: seq<Source>, pos: seq<nat>, heap: set<MergeHead>, lt: Order)
    returns (w: nat, next: seq<nat>, heads: set<MergeHead>)
    requires StrictTotal(lt) && |pos| == |sources| && heap == Heads(sources, pos) && heap != {}
    ensures Winner(sources, pos, w, |sources|, lt) && |next| == |pos| && heads == Heads(sources, next)
    ensures var key := Head(sources, pos, w);
            forall i | 0 <= i < |pos| ::
              next[i] == if HasHead(sources, pos, i) && Head(sources, pos, i) == key then pos[i] + 1 else pos[i]
  {
    var key, equal, rest := PopEqual(heap, lt);
    w := Newest(equal);
    HeapWinner(sources, pos, key, equal, w, lt);
    RestIs(sources, pos, key, equal);
    next, heads := PopAndRepush(sources, pos, equal, rest);
  }

  /** `KMergeIter`, feeding the SST writer: the same output, by way of a heap. */
  method HeapMerge(sources: seq<Source>, ghost layers: seq<Layer>, drop: bool, lt: Order) returns (out: Source)
    requires Setup(sources, layers, lt)
    ensures Sorted(out, lt)
    ensures forall k: Key, e: Entry :: (k, e) in out <==> Wanted(layers, k, drop) == Some(e)
  {
    out := [];
    var pos: seq<nat> := seq(|sources|, _ => 0);
    ghost var last: Option<Key> := None;
    var heap := Seed(sources, pos);
    while heap != {}
      invariant AllPast(sources, pos, last, lt) && Emitted(out, layers, last, drop, lt)
      invariant heap == Heads(sources, pos)
      decreases Unread(sources, pos, |sources|)
    {
      var w, next;
      w, next, heap := Advance(sources, pos, heap, lt);
      var key, e := Head(sources, pos, w), sources[w][pos[w]].1;
      EmitNext(out, sources, layers, pos, last, w, drop, lt);
      PastAll(sources, pos, next, last, w, lt);
      UnreadDrops(sources, pos, next, w, |sources|);
      if !(drop && e.Tombstone?) { out := out + [(key, e)]; }
      pos, last := next, Some(key);
    }
    NoHeads(sources, pos);
    forall k: Key, e: Entry ensures (k, e) in out <==> Wanted(layers, k, drop) == Some(e) {
      if Wanted(layers, k, drop) == Some(e) { AllPassed(sources, layers, pos, last, lt, k); }
    }
  }

  /** What `compact_with_fs_opts` writes lists the merged layer that compaction is proved
      about. */
  lemma CompactionWritesMerged(layers: seq<Layer>, out: Source, drop: bool, lt: Order)
    requires Sorted(out, lt)
    requires forall k: Key, e: Entry :: (k, e) in out <==> Wanted(layers, k, drop) == Some(e)
    ensures Lists(out, Merged(layers, drop))
  {
    var m := Merged(layers, drop);
    forall i | 0 <= i < |out| ensures out[i].0 in m && m[out[i].0] == out[i].1 {
      assert (out[i].0, out[i].1) in out;
      MergedFinds(layers, drop, out[i].0);
      FindOne(m, out[i].0);
    }
    forall k | k in m ensures exists i :: 0 <= i < |out| && out[i].0 == k {
      MergedFinds(layers, drop, k);
      FindOne(m, k);
      assert (k, m[k]) in out;
    }
  }
}
