/** SST entries in their binary form, packed into blocks of about 4 KiB
    (examples/sst_compression_probe.rs), and the parser that reads them back
    (src/storage/sst.rs). */
module SstBlocks {
  import opened Basics
  import opened Framing

  /** `value` is `None` for a tombstone. */
  datatype Entry = Entry(realm: Uuid, key: seq<Byte>, value: Option<seq<Byte>>)

  const V3_BLOCK_TARGET_BYTES := 4096

  function Tag(e: Entry): (b: Byte) {
    if e.value.Some? then 0 else 1
  }

  function Stored(e: Entry): (v: seq<Byte>) {
    if e.value.Some? then e.value.value else []
  }

  function Serialized(e: Entry): (s: seq<Byte>)
    ensures |s| == 25 + |e.key| + |Stored(e)|
  {
    [Tag(e)] + e.realm + Pair(e.key, Stored(e))
  }

  predicate Fits(e: Entry) {
    |e.key| < U32 && |Stored(e)| < U32
  }

  predicate AllFit(es: seq<Entry>) {
    forall i | 0 <= i < |es| :: Fits(es[i])
  }

  /** An entry, byte by byte: type 0 or, for a tombstone, 1; the realm; then key and value, each behind
      its length in four bytes, the lowest first. */
  lemma Layout(e: Entry)
    ensures var s, n := Serialized(e), |e.key|;
            && s[0] == (if e.value.Some? then 0 else 1) && s[1..17] == e.realm
            && s[17..21] == [n % 256, n / 256 % 256, n / 0x1_0000 % 256, n / 0x100_0000 % 256]
            && s[21..21 + n] == e.key
            && (e.value.Some? ==> s[25 + n..] == e.value.value) && (e.value.None? ==> |s| == 25 + n)
  {
    var s, n := Serialized(e), |e.key|;
    FourBytes(n);
    var p := Pair(e.key, Stored(e));
    assert s[17..] == p;
    assert p[..4] == Le(n, 4) && p[4..4 + n] == e.key && p[8 + n..] == Stored(e);
    assert s[17..21] == p[..4] && s[21..21 + n] == p[4..4 + n] && s[25 + n..] == p[8 + n..];
  }

  // ----- Reading

  datatype Step = Step(entry: Entry, next: nat)

  function ReadEntry(d: seq<Byte>, i: nat): (r: Result<Step>)
    ensures r.Ok? ==> i < r.value.next <= |d|
  {
    if |d| < i + 17 then Err
    else
      var p := ReadPair(d, i + 17);
      if p.Err? then Err
      else
        PairWrittenRead(d, i + 17);
        if d[i] == 0 then Ok(Step(Entry(d[i + 1..i + 17], p.value.key, Some(p.value.value)), p.value.next))
        else if d[i] == 1 then Ok(Step(Entry(d[i + 1..i + 17], p.value.key, None), p.value.next))
        else Err
  }

  function Reader(d: seq<Byte>): (read: nat -> Result<Step>) {
    (i: nat) => ReadEntry(d, i)
  }

  /** The entries from `i` up to `n`, read one after the other. */
  function ReadFrom(read: nat -> Result<Step>, i: nat, n: nat): (r: Result<seq<Entry>>)
    requires i <= n
    decreases n - i
  {
    if i == n then Ok([])
    else
      var e := read(i);
      if e.Err? || !(i < e.value.next <= n) then Err
      else
        var rest := ReadFrom(read, e.value.next, n);
        if rest.Err? then Err else Ok([e.value.entry] + rest.value)
  }

  function ReadBlock(d: seq<Byte>): (r: Result<seq<Entry>>) {
    ReadFrom(Reader(d), 0, |d|)
  }

  method ReadLoop(read: nat -> Result<Step>, n: nat) returns (r: Result<seq<Entry>>)
    ensures r == ReadFrom(read, 0, n)
  {
    var entries: seq<Entry> := [];
    var i := 0;
    BehindNone(entries, ReadFrom(read, 0, n));
    while i < n
      invariant 0 <= i <= n
      invariant ReadFrom(read, 0, n) == Behind(entries, ReadFrom(read, i, n))
      decreases n - i
    {
      var e := read(i);
      if e.Err? || !(i < e.value.next <= n) { return Err; }
      ReadNext(read, i, n, entries);
      entries := entries + [e.value.entry];
      i := e.value.next;
    }
    BehindNone(entries, Ok([]));
    return Ok(entries);
  }

  method ParseEntries(d: seq<Byte>) returns (r: Result<seq<Entry>>)
    ensures r == ReadBlock(d)
  {
    r := ReadLoop(Reader(d), |d|);
  }

  lemma BehindNone(a: seq<Entry>, r: Result<seq<Entry>>)
    ensures Behind([], r) == r && Behind(a, Ok([])) == Ok(a)
  {
    if r.Ok? { assert [] + r.value == r.value; }
    assert a + [] == a;
  }

  function Behind(a: seq<Entry>, r: Result<seq<Entry>>): (s: Result<seq<Entry>>) {
    if r.Err? then Err else Ok(a + r.value)
  }

  lemma ReadNext(read: nat -> Result<Step>, i: nat, n: nat, entries: seq<Entry>)
    requires i < n && read(i).Ok? && i < read(i).value.next <= n
    ensures Behind(entries, ReadFrom(read, i, n)) ==
            Behind(entries + [read(i).value.entry], ReadFrom(read, read(i).value.next, n))
  {
    var rest := ReadFrom(read, read(i).value.next, n);
    if rest.Ok? { Associate(entries, [read(i).value.entry], rest.value); }
  }

  /** All blocks, one after the other. */
  function ReadBlocks(blocks: seq<seq<Byte>>, b: nat): (r: Result<seq<Entry>>)
    requires b <= |blocks|
    decreases |blocks| - b
  {
    if b == |blocks| then Ok([])
    else
      var one, rest := ReadBlock(blocks[b]), ReadBlocks(blocks, b + 1);
      if one.Err? || rest.Err? then Err else Ok(one.value + rest.value)
  }

  lemma ReadSerialized(d: seq<Byte>, i: nat, e: Entry)
    requires Has(d, i, Serialized(e)) && Fits(e)
    ensures ReadEntry(d, i) == Ok(Step(e, i + |Serialized(e)|))
  {
    var p := Pair(e.key, Stored(e));
    AgreesSplit(d, i, [Tag(e)] + e.realm, p);
    AgreesSplit(d, i, [Tag(e)], e.realm);
    assert d[i + 0] == [Tag(e)][0];
    forall j | 0 <= j < 16 ensures d[i + 1..i + 17][j] == e.realm[j] {
      assert d[i + 1 + j] == e.realm[j];
    }
    assert d[i + 1..i + 17] == e.realm;
    ReadPairWritten(d, i + 17, e.key, Stored(e));
  }

  lemma ReadFits(d: seq<Byte>, i: nat)
    requires ReadEntry(d, i).Ok?
    ensures Fits(ReadEntry(d, i).value.entry)
  {
    PairWrittenRead(d, i + 17);
  }

  lemma {:induction false} BlockFits(d: seq<Byte>, i: nat)
    requires i <= |d| && ReadFrom(Reader(d), i, |d|).Ok?
    ensures AllFit(ReadFrom(Reader(d), i, |d|).value)
    decreases |d| - i
  {
    if i < |d| {
      ReadFits(d, i);
      BlockFits(d, ReadEntry(d, i).value.next);
    }
  }

  lemma {:induction false} BlocksFit(blocks: seq<seq<Byte>>, b: nat)
    requires b <= |blocks| && ReadBlocks(blocks, b).Ok?
    ensures AllFit(ReadBlocks(blocks, b).value)
    decreases |blocks| - b
  {
    if b < |blocks| {
      BlockFits(blocks[b], 0);
      BlocksFit(blocks, b + 1);
    }
  }

  // ----- Packing

  function Join<T>(fs: seq<seq<T>>, i: nat, j: nat): (s: seq<T>)
    requires i <= j <= |fs|
    decreases j - i
  {
    if i == j then [] else Join(fs, i, j - 1) + fs[j - 1]
  }

  function Frames(es: seq<Entry>): (fs: seq<seq<Byte>>)
    ensures |fs| == |es| && forall i | 0 <= i < |es| :: fs[i] == Serialized(es[i])
  {
    seq(|es|, i requires 0 <= i < |es| => Serialized(es[i]))
  }

  /** The bytes of `es[i..j]`. */
  function Run(es: seq<Entry>, i: nat, j: nat): (s: seq<Byte>)
    requires i <= j <= |es|
  {
    Join(Frames(es), i, j)
  }

  /** Entry `k` is read at `at[k]`, and the next one stands at `at[k + 1]`. */
  ghost predicate ReadsAt(read: nat -> Result<Step>, es: seq<Entry>, at: seq<nat>, k: nat) {
    k < |es| && k + 1 < |at| && read(at[k]) == Ok(Step(es[k], at[k + 1])) && at[k] < at[k + 1]
  }

  lemma {:induction false} ReadStanding(read: nat -> Result<Step>, es: seq<Entry>, at: seq<nat>, k: nat)
    requires k <= |es| && |at| == |es| + 1 && forall m | k <= m < |es| :: ReadsAt(read, es, at, m)
    ensures at[k] <= at[|es|] && ReadFrom(read, at[k], at[|es|]) == Ok(es[k..])
    decreases |es| - k
  {
    if k < |es| {
      assert ReadsAt(read, es, at, k);
      ReadStanding(read, es, at, k + 1);
      FirstAndRest(es, k);
    } else {
      assert es[k..] == [];
    }
  }

  lemma {:induction false} JoinHas(d: seq<Byte>, fs: seq<seq<Byte>>, i: nat, k: nat, j: nat)
    requires i <= k < j <= |fs| && Has(d, 0, Join(fs, i, j))
    ensures Has(d, |Join(fs, i, k)|, fs[k])
    decreases j - k
  {
    AgreesSplit(d, 0, Join(fs, i, j - 1), fs[j - 1]);
    if k < j - 1 { JoinHas(d, fs, i, k, j - 1); }
  }

  /** Where the frames of `fs[i..j]` begin, and where the last one ends. */
  function Offsets(fs: seq<seq<Byte>>, i: nat, j: nat): (at: seq<nat>)
    requires i <= j <= |fs|
    ensures |at| == j - i + 1 && forall k | 0 <= k <= j - i :: at[k] == |Join(fs, i, i + k)|
  {
    seq(j - i + 1, k requires 0 <= k <= j - i => |Join(fs, i, i + k)|)
  }

  lemma EntryStands(d: seq<Byte>, es: seq<Entry>, at: seq<nat>, k: nat)
    requires k < |es| && k + 1 < |at| && Fits(es[k])
    requires Has(d, at[k], Serialized(es[k])) && at[k + 1] == at[k] + |Serialized(es[k])|
    ensures ReadsAt(Reader(d), es, at, k)
  {
    ReadSerialized(d, at[k], es[k]);
  }

  lemma JoinNext<T>(fs: seq<seq<T>>, i: nat, k: nat)
    requires i <= k < |fs|
    ensures |Join(fs, i, k + 1)| == |Join(fs, i, k)| + |fs[k]|
  {
  }

  lemma RunStands(es: seq<Entry>, i: nat, j: nat, k: nat)
    requires i <= i + k < j <= |es| && AllFit(es)
    ensures ReadsAt(Reader(Run(es, i, j)), es[i..j], Offsets(Frames(es), i, j), k)
  {
    JoinHas(Run(es, i, j), Frames(es), i, i + k, j);
    JoinNext(Frames(es), i, i + k);
    EntryStands(Run(es, i, j), es[i..j], Offsets(Frames(es), i, j), k);
  }

  /** A block of whole entries is read back as those entries. */
  lemma ReadRun(es: seq<Entry>, i: nat, j: nat)
    requires i <= j <= |es| && AllFit(es)
    ensures ReadBlock(Run(es, i, j)) == Ok(es[i..j])
  {
    var at := Offsets(Frames(es), i, j);
    forall k | 0 <= k < j - i ensures ReadsAt(Reader(Run(es, i, j)), es[i..j], at, k) {
      RunStands(es, i, j, k);
    }
    ReadStanding(Reader(Run(es, i, j)), es[i..j], at, 0);
    assert es[i..j][0..] == es[i..j];
  }

  /** `blocks` cuts the entries at `cuts`: every block holds whole entries, at least one; it
      reaches the target, unless it is the last; and it does not without its last entry. */
  ghost predicate Packed(es: seq<Entry>, blocks: seq<seq<Byte>>, cuts: seq<nat>) {
    && |cuts| == |blocks| + 1 && cuts[0] == 0 && cuts[|blocks|] == |es|
    && (forall b | 0 <= b < |blocks| :: BlockOk(es, blocks[b], cuts[b], cuts[b + 1]))
    && (forall b | 0 <= b < |blocks| - 1 :: |blocks[b]| >= 4096)
  }

  ghost predicate BlockOk(es: seq<Entry>, block: seq<Byte>, i: nat, j: nat) {
    i < j <= |es| && block == Run(es, i, j) && |Run(es, i, j - 1)| < 4096
  }

  function Of(realm: Uuid, kv: (seq<Byte>, seq<Byte>)): (e: Entry) {
    Entry(realm, kv.0, Some(kv.1))
  }

  function Entries(realm: Uuid, kvs: seq<(seq<Byte>, seq<Byte>)>): (es: seq<Entry>)
    ensures |es| == |kvs| && forall i | 0 <= i < |kvs| :: es[i] == Of(realm, kvs[i])
  {
    seq(|kvs|, i requires 0 <= i < |kvs| => Of(realm, kvs[i]))
  }

  /** The blocks cut the entries at some places. */
  ghost predicate IsPacked(es: seq<Entry>, blocks: seq<seq<Byte>>) {
    exists cuts: seq<nat> :: Packed(es, blocks, cuts)
  }

  method PackBlocks(realm: Uuid, kvs: seq<(seq<Byte>, seq<Byte>)>) returns (blocks: seq<seq<Byte>>)
    ensures IsPacked(Entries(realm, kvs), blocks)
  {
    ghost var es, cuts: seq<nat> := Entries(realm, kvs), [0];
    blocks := [];
    var cur: seq<Byte> := [];
    var i := 0;
    while i < |kvs|
      invariant 0 <= i <= |kvs|
      invariant |cuts| == |blocks| + 1 && cuts[0] == 0 && cuts[|blocks|] <= i
      invariant cur == Run(es, cuts[|blocks|], i) && |cur| < V3_BLOCK_TARGET_BYTES
      invariant forall b | 0 <= b < |blocks| ::
                  BlockOk(es, blocks[b], cuts[b], cuts[b + 1]) && |blocks[b]| >= V3_BLOCK_TARGET_BYTES
    {
      cur := cur + Serialized(Of(realm, kvs[i]));
      i := i + 1;
      if |cur| >= V3_BLOCK_TARGET_BYTES {
        assert BlockOk(es, cur, cuts[|blocks|], i);
        blocks, cuts := blocks + [cur], cuts + [i];
        cur := [];
      }
    }
    if cur != [] {
      RunShort(es, cuts[|blocks|], i);
      blocks, cuts := blocks + [cur], cuts + [i];
    } else {
      EmptyRun(es, cuts[|blocks|], i);
    }
    assert Packed(es, blocks, cuts);
  }

  lemma RunShort(es: seq<Entry>, i: nat, j: nat)
    requires i <= j <= |es| && Run(es, i, j) != [] && |Run(es, i, j)| < V3_BLOCK_TARGET_BYTES
    ensures BlockOk(es, Run(es, i, j), i, j)
  {
  }

  lemma EmptyRun(es: seq<Entry>, i: nat, j: nat)
    requires i <= j <= |es| && Run(es, i, j) == []
    ensures i == j
  {
  }

  lemma ReadOne(es: seq<Entry>, block: seq<Byte>, i: nat, j: nat)
    requires BlockOk(es, block, i, j) && AllFit(es)
    ensures ReadBlock(block) == Ok(es[i..j])
  {
    ReadRun(es, i, j);
  }

  lemma {:induction false} ReadPacked(es: seq<Entry>, blocks: seq<seq<Byte>>, cuts: seq<nat>, b: nat)
    requires Packed(es, blocks, cuts) && AllFit(es) && b <= |blocks|
    ensures cuts[b] <= |es| && ReadBlocks(blocks, b) == Ok(es[cuts[b]..])
    decreases |blocks| - b
  {
    if b < |blocks| {
      ReadPacked(es, blocks, cuts, b + 1);
      ReadOne(es, blocks[b], cuts[b], cuts[b + 1]);
      Rejoin(es, cuts[b], cuts[b + 1]);
    }
  }

  /** Reading the packed blocks gives back the entries, exactly when all lengths fit their 32
      bits. */
  lemma RoundTripIff(es: seq<Entry>, blocks: seq<seq<Byte>>)
    requires IsPacked(es, blocks)
    ensures ReadBlocks(blocks, 0) == Ok(es) <==> AllFit(es)
  {
    var cuts: seq<nat> :| Packed(es, blocks, cuts);
    if AllFit(es) {
      ReadPacked(es, blocks, cuts, 0);
      assert es[0..] == es;
    }
    if ReadBlocks(blocks, 0).Ok? { BlocksFit(blocks, 0); }
  }
}
