/** The binary form of WAL entries and of the batches inside them (src/storage/wal.rs). */
module WalCodec {
  import opened Basics
  import opened Framing

  datatype Operation = Put | Delete | Batch

  const U64 := 0x1_0000_0000_0000_0000

  type I64 = n: int | -0x8000_0000_0000_0000 <= n < 0x8000_0000_0000_0000

  datatype WalEntry = WalEntry(timestamp: I64, realm: Uuid, operation: Operation, key: seq<Byte>, value: seq<Byte>)

  function OpByte(op: Operation): (b: Byte) {
    match op
    case Put => 0
    case Delete => 1
    case Batch => 2
  }

  function OpOf(b: Byte): (r: Result<Operation>)
    ensures r.Ok? ==> OpByte(r.value) == b
  {
    if b == 0 then Ok(Put) else if b == 1 then Ok(Delete) else if b == 2 then Ok(Batch) else Err
  }

  /** Two's complement. */
  function Unsigned(n: I64): (u: nat)
    ensures u < U64
  {
    if n < 0 then n + U64 else n
  }

  function Signed(u: nat): (n: I64)
    requires u < U64
  {
    if u >= 0x8000_0000_0000_0000 then u - U64 else u
  }

  lemma PowEight()
    ensures Pow256(8) == U64
  {
    PowFour();
    assert Pow256(6) == 65536 * Pow256(4);
  }

  function Head(e: WalEntry): (h: seq<Byte>)
    ensures |h| == 25
  {
    Le(Unsigned(e.timestamp), 8) + e.realm + [OpByte(e.operation)]
  }

  function Serialize(e: WalEntry): (s: seq<Byte>)
    ensures |s| == 33 + |e.key| + |e.value|
  {
    Head(e) + Pair(e.key, e.value)
  }

  function Deserialize(d: seq<Byte>): (r: Result<WalEntry>) {
    if |d| < 33 then Err
    else
      var op := OpOf(d[24]);
      if op.Err? then Err
      else
        var p := ReadPair(d, 25);
        if p.Err? then Err
        else
          PowEight();
          LeOfNum(d, 0, 8);
          Ok(WalEntry(Signed(Num(d, 0, 8)), d[8..24], op.value, p.value.key, p.value.value))
  }

  /** Lengths that fit their prefix. */
  predicate Fits(key: seq<Byte>, value: seq<Byte>) {
    |key| < U32 && |value| < U32
  }

  lemma HeadRead(d: seq<Byte>, e: WalEntry)
    requires |d| >= 25 && Agrees(d, 0, Head(e))
    ensures Num(d, 0, 8) == Unsigned(e.timestamp) && d[8..24] == e.realm && d[24] == OpByte(e.operation)
  {
    var t, r, o := Le(Unsigned(e.timestamp), 8), e.realm, [OpByte(e.operation)];
    AgreesSplit(d, 0, t + r, o);
    AgreesSplit(d, 0, t, r);
    PowEight();
    NumOfLe(d, 0, Unsigned(e.timestamp), 8);
    assert d[24 + 0] == o[0];
    forall j | 0 <= j < 16 ensures d[8..24][j] == r[j] {
      assert d[8 + j] == r[j];
    }
  }

  lemma HeadWritten(d: seq<Byte>, e: WalEntry)
    requires |d| >= 25
    requires Num(d, 0, 8) == Unsigned(e.timestamp) && d[8..24] == e.realm && d[24] == OpByte(e.operation)
    ensures Agrees(d, 0, Head(e))
  {
    var t, r, o := Le(Unsigned(e.timestamp), 8), e.realm, [OpByte(e.operation)];
    LeOfNum(d, 0, 8);
    forall j | 0 <= j < 16 ensures d[8 + j] == r[j] {
      assert d[8..24][j] == r[j];
    }
    AgreesSplit(d, 0, t, r);
    AgreesSplit(d, 0, t + r, o);
  }

  /** An entry, byte by byte: the time in two's complement, the realm, the operation (0 puts, 1
      deletes, 2 is a batch), then key and value, each behind its length in four bytes, the lowest
      first. */
  lemma Layout(e: WalEntry)
    ensures var s, n := Serialize(e), |e.key|;
            && Num(s, 0, 8) == (if e.timestamp < 0 then e.timestamp + 0x1_0000_0000_0000_0000 else e.timestamp)
            && s[8..24] == e.realm && s[24] == (match e.operation case Put => 0 case Delete => 1 case Batch => 2)
            && s[25..29] == [n % 256, n / 256 % 256, n / 0x1_0000 % 256, n / 0x100_0000 % 256]
            && s[29..29 + n] == e.key && s[33 + n..] == e.value
  {
    var s, n := Serialize(e), |e.key|;
    HeadRead(s, e);
    FourBytes(n);
    var p := Pair(e.key, e.value);
    assert s[25..] == p;
    assert p[..4] == Le(n, 4) && p[4..4 + n] == e.key && p[8 + n..] == e.value;
    assert s[25..29] == p[..4] && s[29..29 + n] == p[4..4 + n] && s[33 + n..] == p[8 + n..];
  }

  /** A buffer that is, as far as it goes, the form of an entry is read as that entry when it
      holds all of it, and refused when it does not. */
  lemma ReadSerialized(d: seq<Byte>, e: WalEntry)
    requires Agrees(d, 0, Serialize(e)) && Fits(e.key, e.value)
    ensures Deserialize(d) == if |Serialize(e)| <= |d| then Ok(e) else Err
  {
    if |d| >= 33 {
      AgreesSplit(d, 0, Head(e), Pair(e.key, e.value));
      HeadRead(d, e);
      ReadPairWritten(d, 25, e.key, e.value);
    }
  }

  /** The decoder accepts exactly the buffers that start with the form of an entry whose
      lengths fit in 32 bits, and gives that entry. */
  lemma DeserializeIff(d: seq<Byte>, e: WalEntry)
    ensures Deserialize(d) == Ok(e) <==> Fits(e.key, e.value) && Has(d, 0, Serialize(e))
  {
    if Deserialize(d) == Ok(e) {
      PairWrittenRead(d, 25);
      PowEight();
      LeOfNum(d, 0, 8);
      HeadWritten(d, e);
      AgreesSplit(d, 0, Head(e), Pair(e.key, e.value));
    }
    if Fits(e.key, e.value) && Has(d, 0, Serialize(e)) { ReadSerialized(d, e); }
  }

  /** The round trip holds exactly for entries whose lengths fit in 32 bits. */
  lemma RoundTripIff(e: WalEntry)
    ensures Deserialize(Serialize(e)) == Ok(e) <==> Fits(e.key, e.value)
  {
    DeserializeIff(Serialize(e), e);
  }

  /** No proper prefix of an entry is accepted. */
  lemma TruncationRefused(e: WalEntry, c: nat)
    requires Fits(e.key, e.value) && c < |Serialize(e)|
    ensures Deserialize(Serialize(e)[..c]) == Err
  {
    ReadSerialized(Serialize(e)[..c], e);
  }

  // ----- Batches

  datatype BatchEntry = BatchEntry(operation: Operation, key: seq<Byte>, value: seq<Byte>)

  predicate GoodEntry(b: BatchEntry) {
    b.operation != Batch && Fits(b.key, b.value)
  }

  predicate GoodBatch(es: seq<BatchEntry>) {
    forall i | 0 <= i < |es| :: GoodEntry(es[i])
  }

  function Sub(b: BatchEntry): (s: seq<Byte>)
    ensures |s| == 9 + |b.key| + |b.value|
  {
    [OpByte(b.operation)] + Pair(b.key, b.value)
  }

  /** The bytes of `es[i..]`. */
  function Body(es: seq<BatchEntry>, i: nat): (s: seq<Byte>)
    requires i <= |es|
    decreases |es| - i
  {
    if i == |es| then [] else Sub(es[i]) + Body(es, i + 1)
  }

  function Payload(es: seq<BatchEntry>): (p: seq<Byte>) {
    Le(|es|, 4) + Body(es, 0)
  }

  method EncodeBatch(es: seq<BatchEntry>) returns (r: Result<seq<Byte>>)
    ensures r == if exists i | 0 <= i < |es| :: es[i].operation == Batch then Err else Ok(Payload(es))
  {
    var buf := Le(|es|, 4);
    var i := 0;
    while i < |es|
      invariant 0 <= i <= |es|
      invariant forall j | 0 <= j < i :: es[j].operation != Batch
      invariant buf + Body(es, i) == Payload(es)
    {
      if es[i].operation == Batch { return Err; }
      Associate(buf, Sub(es[i]), Body(es, i + 1));
      buf := buf + Sub(es[i]);
      i := i + 1;
    }
    assert buf + [] == buf;
    return Ok(buf);
  }

  datatype Entry = Entry(entry: BatchEntry, next: nat)

  function ReadSub(d: seq<Byte>, i: nat): (r: Result<Entry>)
    ensures r.Ok? ==> r.value.next > i
  {
    if |d| < i + 1 then Err
    else
      var op := OpOf(d[i]);
      if op.Err? || op.value == Batch then Err
      else
        var p := ReadPair(d, i + 1);
        if p.Err? then Err
        else
          PairWrittenRead(d, i + 1);
          Ok(Entry(BatchEntry(op.value, p.value.key, p.value.value), p.value.next))
  }

  /** `n` entries from `i` on. */
  function ReadSubs(d: seq<Byte>, i: nat, n: nat): (r: Result<seq<BatchEntry>>)
    decreases n
  {
    if n == 0 then Ok([])
    else
      var e := ReadSub(d, i);
      if e.Err? then Err
      else
        var rest := ReadSubs(d, e.value.next, n - 1);
        if rest.Err? then Err else Ok([e.value.entry] + rest.value)
  }

  const MIN_BATCH_ENTRY_SIZE := 9

  /** The number of entries the decoder looks for: the count in front, but no more than the
      bytes could hold. */
  function Wanted(d: seq<Byte>): (n: nat)
    requires |d| >= 4
  {
    var cap := (|d| - 4) / MIN_BATCH_ENTRY_SIZE;
    if Num(d, 0, 4) < cap then Num(d, 0, 4) else cap
  }

  function Decoded(d: seq<Byte>): (r: Result<seq<BatchEntry>>) {
    if |d| < 4 then Err else ReadSubs(d, 4, Wanted(d))
  }

  function Prepend<T>(a: seq<T>, r: Result<seq<T>>): (s: Result<seq<T>>) {
    if r.Err? then Err else Ok(a + r.value)
  }

  lemma PrependNone<T>(a: seq<T>, r: Result<seq<T>>)
    ensures Prepend([], r) == r && Prepend(a, Ok([])) == Ok(a)
  {
    if r.Ok? { assert [] + r.value == r.value; }
    assert a + [] == a;
  }

  /** `ReadSubs` for any way of reading one entry. */
  function ReadMany(read: nat -> Result<Entry>, i: nat, n: nat): (r: Result<seq<BatchEntry>>)
    decreases n
  {
    if n == 0 then Ok([])
    else
      var e := read(i);
      if e.Err? then Err else Prepend([e.value.entry], ReadMany(read, e.value.next, n - 1))
  }

  function Reader(d: seq<Byte>): (read: nat -> Result<Entry>) {
    (i: nat) => ReadSub(d, i)
  }

  lemma {:induction false} ReadManySubs(d: seq<Byte>, i: nat, n: nat)
    ensures ReadMany(Reader(d), i, n) == ReadSubs(d, i, n)
    decreases n
  {
    if n > 0 && ReadSub(d, i).Ok? { ReadManySubs(d, ReadSub(d, i).value.next, n - 1); }
  }

  lemma ReadNext(read: nat -> Result<Entry>, i: nat, n: nat, entries: seq<BatchEntry>)
    requires n > 0
    ensures Prepend(entries, ReadMany(read, i, n)) ==
            if read(i).Err? then Err
            else Prepend(entries + [read(i).value.entry], ReadMany(read, read(i).value.next, n - 1))
  {
    if read(i).Ok? {
      var rest := ReadMany(read, read(i).value.next, n - 1);
      if rest.Ok? { Associate(entries, [read(i).value.entry], rest.value); }
    }
  }

  method Entries(read: nat -> Result<Entry>, from: nat, n: nat) returns (r: Result<seq<BatchEntry>>)
    ensures r == ReadMany(read, from, n)
  {
    var entries: seq<BatchEntry> := [];
    var i, k := from, 0;
    PrependNone([], ReadMany(read, from, n));
    while k < n
      invariant 0 <= k <= n
      invariant ReadMany(read, from, n) == Prepend(entries, ReadMany(read, i, n - k))
    {
      ReadNext(read, i, n - k, entries);
      var e := read(i);
      if e.Err? { return Err; }
      entries := entries + [e.value.entry];
      i := e.value.next;
      k := k + 1;
    }
    PrependNone(entries, Ok([]));
    return Ok(entries);
  }

  method DecodeBatch(d: seq<Byte>) returns (r: Result<seq<BatchEntry>>)
    ensures r == Decoded(d)
  {
    if |d| < 4 { return Err; }
    ReadManySubs(d, 4, Wanted(d));
    r := Entries(Reader(d), 4, Wanted(d));
  }

  // ----- What the batch decoder accepts

  lemma ReadSubWritten(d: seq<Byte>, i: nat, b: BatchEntry)
    requires Agrees(d, i, Sub(b)) && GoodEntry(b) && i <= |d|
    ensures ReadSub(d, i) == if i + |Sub(b)| <= |d| then Ok(Entry(b, i + |Sub(b)|)) else Err
  {
    if i < |d| {
      AgreesSplit(d, i, [OpByte(b.operation)], Pair(b.key, b.value));
      assert d[i + 0] == [OpByte(b.operation)][0];
      ReadPairWritten(d, i + 1, b.key, b.value);
    }
  }

  lemma SubWrittenRead(d: seq<Byte>, i: nat)
    requires ReadSub(d, i).Ok?
    ensures var e := ReadSub(d, i).value;
            GoodEntry(e.entry) && e.next == i + |Sub(e.entry)| <= |d| && Agrees(d, i, Sub(e.entry))
  {
    var b := ReadSub(d, i).value.entry;
    PairWrittenRead(d, i + 1);
    AgreesSplit(d, i, [OpByte(b.operation)], Pair(b.key, b.value));
  }

  /** The bytes of the entries before `j`. */
  function Size(es: seq<BatchEntry>, i: nat, j: nat): (n: nat)
    requires i <= j <= |es|
    ensures n >= 9 * (j - i)
    decreases j - i
  {
    if i == j then 0 else |Sub(es[i])| + Size(es, i + 1, j)
  }

  lemma {:induction false} BodySize(es: seq<BatchEntry>, i: nat)
    requires i <= |es|
    ensures |Body(es, i)| == Size(es, i, |es|)
    decreases |es| - i
  {
    if i < |es| { BodySize(es, i + 1); }
  }

  lemma SubsFirst(d: seq<Byte>, at: nat, n: nat)
    requires n > 0
    ensures ReadSubs(d, at, n) ==
            if ReadSub(d, at).Err? then Err
            else Prepend([ReadSub(d, at).value.entry], ReadSubs(d, ReadSub(d, at).value.next, n - 1))
  {
  }

  lemma FrontSlice<T>(s: seq<T>, i: nat, j: nat)
    requires i < j <= |s|
    ensures [s[i]] + s[i + 1..j] == s[i..j]
  {
  }

  /** Reading `j - i` entries where `es[i..]` stands. */
  lemma {:induction false} ReadSubsWritten(d: seq<Byte>, at: nat, es: seq<BatchEntry>, i: nat, j: nat)
    requires i <= j <= |es| && GoodBatch(es) && at <= |d| && Agrees(d, at, Body(es, i))
    ensures ReadSubs(d, at, j - i) == if at + Size(es, i, j) <= |d| then Ok(es[i..j]) else Err
    decreases j - i
  {
    if i < j {
      AgreesSplit(d, at, Sub(es[i]), Body(es, i + 1));
      ReadSubWritten(d, at, es[i]);
      SubsFirst(d, at, j - i);
      if at + |Sub(es[i])| <= |d| {
        ReadSubsWritten(d, at + |Sub(es[i])|, es, i + 1, j);
        FrontSlice(es, i, j);
      }
    } else {
      assert es[i..j] == [];
    }
  }

  lemma BodyCons(b: BatchEntry, es: seq<BatchEntry>, i: nat)
    requires i <= |es|
    ensures Body([b] + es, i + 1) == Body(es, i)
    decreases |es| - i
  {
    if i < |es| {
      BodyCons(b, es, i + 1);
      assert ([b] + es)[i + 1] == es[i];
    }
  }

  lemma HasFront(d: seq<Byte>, at: nat, b: BatchEntry, rest: seq<BatchEntry>)
    requires at + |Sub(b)| <= |d| && Agrees(d, at, Sub(b)) && Has(d, at + |Sub(b)|, Body(rest, 0))
    ensures Has(d, at, Body([b] + rest, 0))
  {
    BodyCons(b, rest, 0);
    AgreesSplit(d, at, Sub(b), Body(rest, 0));
    assert ([b] + rest)[0] == b;
  }

  lemma {:induction false} SubsWrittenRead(d: seq<Byte>, at: nat, n: nat)
    requires at <= |d| && ReadSubs(d, at, n).Ok?
    ensures var es := ReadSubs(d, at, n).value; |es| == n && GoodBatch(es) && Has(d, at, Body(es, 0))
    decreases n
  {
    if n > 0 {
      SubWrittenRead(d, at);
      var e := ReadSub(d, at).value;
      SubsWrittenRead(d, e.next, n - 1);
      var rest := ReadSubs(d, e.next, n - 1).value;
      SubsFirst(d, at, n);
      HasFront(d, at, e.entry, rest);
    }
  }

  lemma ReadSubsIff(d: seq<Byte>, at: nat, n: nat, es: seq<BatchEntry>)
    requires at <= |d|
    ensures ReadSubs(d, at, n) == Ok(es) <==> |es| == n && GoodBatch(es) && Has(d, at, Body(es, 0))
  {
    if ReadSubs(d, at, n) == Ok(es) { SubsWrittenRead(d, at, n); }
    if |es| == n && GoodBatch(es) && Has(d, at, Body(es, 0)) {
      BodySize(es, 0);
      ReadSubsWritten(d, at, es, 0, |es|);
      assert es[0..|es|] == es;
    }
  }

  /** The decoder accepts exactly the buffers in which that many whole entries follow the
      count: as many as the count says, or as many as the bytes could hold if that is fewer. */
  lemma DecodedIff(d: seq<Byte>, es: seq<BatchEntry>)
    ensures Decoded(d) == Ok(es) <==> |d| >= 4 && |es| == Wanted(d) && GoodBatch(es) && Has(d, 4, Body(es, 0))
  {
    if |d| >= 4 { ReadSubsIff(d, 4, Wanted(d), es); }
  }

  lemma PayloadCount(d: seq<Byte>, es: seq<BatchEntry>)
    requires Agrees(d, 0, Payload(es)) && |d| >= 4 && |es| < U32
    ensures Num(d, 0, 4) == |es| && Agrees(d, 4, Body(es, 0))
  {
    AgreesSplit(d, 0, Le(|es|, 4), Body(es, 0));
    PowFour();
    NumOfLe(d, 0, |es|, 4);
  }

  /** The round trip holds exactly when the count and all lengths fit in 32 bits and no batch
      is nested. */
  lemma BatchRoundTripIff(es: seq<BatchEntry>)
    ensures Decoded(Payload(es)) == Ok(es) <==> |es| < U32 && GoodBatch(es)
  {
    var p := Payload(es);
    DecodedIff(p, es);
    if |es| < U32 {
      PayloadCount(p, es);
      BodySize(es, 0);
    } else {
      PowFour();
      LeOfNum(p, 0, 4);
    }
  }

  /** The decoder is documented to refuse every truncation.  Of a payload cut at `c`, with `j`
      whole entries left, it gives those entries as if they were all, exactly when the cut
      leaves fewer than 9 bytes besides 9 for each of them; otherwise it refuses. */
  lemma TruncatedBatch(es: seq<BatchEntry>, c: nat, j: nat)
    requires |es| < U32 && GoodBatch(es) && 4 <= c <= |Payload(es)|
    requires j < |es| && Size(es, 0, j) <= c - 4 < Size(es, 0, j + 1)
    ensures Decoded(Payload(es)[..c]) == if c - 4 - 9 * j < 9 then Ok(es[..j]) else Err
  {
    var d := Payload(es)[..c];
    PayloadCount(d, es);
    assert es[0..j] == es[..j];
    if c - 4 - 9 * j < 9 {
      assert Wanted(d) == j;
      ReadSubsWritten(d, 4, es, 0, j);
    } else {
      var n := Wanted(d);
      assert j < n <= |es|;
      SizeGrows(es, j + 1, n);
      ReadSubsWritten(d, 4, es, 0, n);
    }
  }

  lemma {:induction false} SizeTo(es: seq<BatchEntry>, i: nat, j: nat, n: nat)
    requires i <= j <= n <= |es|
    ensures Size(es, i, j) <= Size(es, i, n)
    decreases j - i
  {
    if i < j { SizeTo(es, i + 1, j, n); }
  }

  lemma SizeGrows(es: seq<BatchEntry>, j: nat, n: nat)
    requires j <= n <= |es|
    ensures Size(es, 0, j) <= Size(es, 0, n)
  {
    SizeTo(es, 0, j, n);
  }
}
