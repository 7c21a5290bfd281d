/** Little-endian numbers and length-prefixed fields, as the WAL and the SST blocks use them. */
module Framing {
  import opened Basics

  const U32 := 0x1_0000_0000

  function Pow256(k: nat): (p: nat)
    ensures p > 0
  {
    if k == 0 then 1 else 256 * Pow256(k - 1)
  }

  /** The low `k` bytes of `n`, least significant first. */
  function Le(n: nat, k: nat): (s: seq<Byte>)
    ensures |s| == k
  {
    if k == 0 then [] else [n % 256] + Le(n / 256, k - 1)
  }

  function Num(d: seq<Byte>, i: nat, k: nat): (n: nat)
    requires i + k <= |d|
    decreases k
  {
    if k == 0 then 0 else d[i] + 256 * Num(d, i + 1, k - 1)
  }

  /** `s` stands in `d` from `i` on, as far as `d` goes. */
  predicate Agrees(d: seq<Byte>, i: nat, s: seq<Byte>) {
    forall j | 0 <= j < |s| && i + j < |d| :: d[i + j] == s[j]
  }

  predicate Has(d: seq<Byte>, i: nat, s: seq<Byte>) {
    i + |s| <= |d| && Agrees(d, i, s)
  }

  lemma AgreesSplit(d: seq<Byte>, i: nat, s: seq<Byte>, t: seq<Byte>)
    ensures Agrees(d, i, s + t) <==> Agrees(d, i, s) && Agrees(d, i + |s|, t)
  {
    if Agrees(d, i, s + t) {
      forall j | 0 <= j < |s| && i + j < |d| ensures d[i + j] == s[j] {
        assert (s + t)[j] == s[j];
      }
      forall j | 0 <= j < |t| && i + |s| + j < |d| ensures d[i + |s| + j] == t[j] {
        assert (s + t)[|s| + j] == t[j];
        assert i + (|s| + j) < |d|;
      }
    }
    if Agrees(d, i, s) && Agrees(d, i + |s|, t) {
      forall j | 0 <= j < |s + t| && i + j < |d| ensures d[i + j] == (s + t)[j] {
        if j >= |s| { assert d[i + |s| + (j - |s|)] == t[j - |s|]; }
      }
    }
  }

  lemma {:induction false} NumOfLe(d: seq<Byte>, i: nat, n: nat, k: nat)
    requires Has(d, i, Le(n, k)) && n < Pow256(k)
    ensures Num(d, i, k) == n
    decreases k
  {
    if k > 0 {
      assert Le(n, k) == [n % 256] + Le(n / 256, k - 1);
      AgreesSplit(d, i, [n % 256], Le(n / 256, k - 1));
      NumOfLe(d, i + 1, n / 256, k - 1);
      assert d[i + 0] == [n % 256][0];
    }
  }

  lemma LowByte(b: int, m: nat)
    requires 0 <= b < 256
    ensures (b + 256 * m) % 256 == b && (b + 256 * m) / 256 == m
  {
  }

  lemma {:induction false} LeOfNum(d: seq<Byte>, i: nat, k: nat)
    requires i + k <= |d|
    ensures Num(d, i, k) < Pow256(k) && Has(d, i, Le(Num(d, i, k), k))
    decreases k
  {
    if k > 0 {
      LeOfNum(d, i + 1, k - 1);
      var m := Num(d, i + 1, k - 1);
      LowByte(d[i], m);
      AgreesSplit(d, i, [d[i]], Le(m, k - 1));
    }
  }

  lemma PowFour()
    ensures Pow256(4) == U32
  {
    assert Pow256(1) == 256 && Pow256(2) == 65536;
  }

  lemma FourBytes(n: nat)
    ensures Le(n, 4) == [n % 256, n / 256 % 256, n / 0x1_0000 % 256, n / 0x100_0000 % 256]
  {
    assert n / 256 / 256 == n / 0x1_0000 && n / 0x1_0000 / 256 == n / 0x100_0000;
    assert Le(n / 0x1_0000, 2) == [n / 0x1_0000 % 256] + Le(n / 0x100_0000, 1);
  }

  // ----- A field with its length in front

  /** The length is written as 32 bits, whatever it is. */
  function Field(s: seq<Byte>): (f: seq<Byte>) {
    Le(|s|, 4) + s
  }

  datatype Part = Part(field: seq<Byte>, next: nat)

  function ReadField(d: seq<Byte>, i: nat): (r: Result<Part>)
    ensures r.Ok? ==> r.value.next <= |d|
  {
    if |d| < i + 4 then Err
    else
      var n := Num(d, i, 4);
      if |d| < i + 4 + n then Err else Ok(Part(d[i + 4..i + 4 + n], i + 4 + n))
  }

  /** Where a field stands, it is read whole if it is there whole, and refused if `d` ends
      inside it. */
  lemma ReadWritten(d: seq<Byte>, i: nat, s: seq<Byte>)
    requires Agrees(d, i, Field(s)) && |s| < U32 && i <= |d|
    ensures ReadField(d, i) == if i + 4 + |s| <= |d| then Ok(Part(s, i + 4 + |s|)) else Err
  {
    AgreesSplit(d, i, Le(|s|, 4), s);
    if i + 4 <= |d| {
      PowFour();
      NumOfLe(d, i, |s|, 4);
      if i + 4 + |s| <= |d| {
        assert d[i + 4..i + 4 + |s|] == s;
      }
    }
  }

  /** And only what was written is read. */
  lemma WrittenRead(d: seq<Byte>, i: nat)
    requires ReadField(d, i).Ok?
    ensures |ReadField(d, i).value.field| < U32
    ensures ReadField(d, i).value.next == i + 4 + |ReadField(d, i).value.field|
    ensures Agrees(d, i, Field(ReadField(d, i).value.field))
  {
    PowFour();
    LeOfNum(d, i, 4);
    var s := ReadField(d, i).value.field;
    AgreesSplit(d, i, Le(|s|, 4), s);
  }

  // ----- A key and a value

  function Pair(key: seq<Byte>, value: seq<Byte>): (s: seq<Byte>)
    ensures |s| == 8 + |key| + |value|
  {
    Field(key) + Field(value)
  }

  datatype Both = Both(key: seq<Byte>, value: seq<Byte>, next: nat)

  function ReadPair(d: seq<Byte>, i: nat): (r: Result<Both>) {
    var k := ReadField(d, i);
    if k.Err? then Err
    else
      var v := ReadField(d, k.value.next);
      if v.Err? then Err else Ok(Both(k.value.field, v.value.field, v.value.next))
  }

  lemma ReadPairWritten(d: seq<Byte>, i: nat, key: seq<Byte>, value: seq<Byte>)
    requires Agrees(d, i, Pair(key, value)) && |key| < U32 && |value| < U32 && i <= |d|
    ensures ReadPair(d, i) ==
            if i + |Pair(key, value)| <= |d| then Ok(Both(key, value, i + |Pair(key, value)|)) else Err
  {
    AgreesSplit(d, i, Field(key), Field(value));
    ReadWritten(d, i, key);
    if i + 4 + |key| <= |d| { ReadWritten(d, i + 4 + |key|, value); }
  }

  lemma PairWrittenRead(d: seq<Byte>, i: nat)
    requires ReadPair(d, i).Ok?
    ensures var r := ReadPair(d, i).value;
            |r.key| < U32 && |r.value| < U32 && r.next == i + |Pair(r.key, r.value)| <= |d| && Agrees(d, i, Pair(r.key, r.value))
  {
    var r := ReadPair(d, i).value;
    WrittenRead(d, i);
    WrittenRead(d, i + 4 + |r.key|);
    AgreesSplit(d, i, Field(r.key), Field(r.value));
  }
}
