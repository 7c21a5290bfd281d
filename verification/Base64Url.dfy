/** Unpadded base64url (section 5 of RFC 4648), and the three-segment tokens the claims fuzz
    target builds from it (fuzz/fuzz_targets/aat_parse.rs). */
module Base64Url {
  import opened Basics

  type Sextet = v: int | 0 <= v < 64

  /** The alphabet: upper case, lower case, digits, `-` and `_`. */
  function Letter(v: Sextet): (c: char) {
    if v < 26 then 'A' + v as char
    else if v < 52 then 'a' + (v - 26) as char
    else if v < 62 then '0' + (v - 52) as char
    else if v == 62 then '-' else '_'
  }

  function Digit(c: char): (r: Result<Sextet>) {
    if 'A' <= c <= 'Z' then Ok(c as int - 'A' as int)
    else if 'a' <= c <= 'z' then Ok(c as int - 'a' as int + 26)
    else if '0' <= c <= '9' then Ok(c as int - '0' as int + 52)
    else if c == '-' then Ok(62) else if c == '_' then Ok(63) else Err
  }

  lemma DigitIff(c: char, v: Sextet)
    ensures Digit(c) == Ok(v) <==> c == Letter(v)
    ensures Letter(v) != '.'
  {
  }

  /** The alphabet, written out. */
  lemma Alphabet(v: Sextet)
    ensures Letter(v) == ("ABCDEFGHIJKLMNOPQRSTUVWXYZ" + "abcdefghijklmnopqrstuvwxyz" + "0123456789" + "-_")[v]
  {
    if v < 26 { UpperAt(v); } else if v < 52 { LowerAt(v - 26); } else if v < 62 { DigitAt(v - 52); }
  }

  // ----- One chunk of up to three bytes

  function At(s: seq<Byte>, i: nat): (n: nat)
    ensures n < 256
  {
    if i < |s| then s[i] else 0
  }

  /** The bytes of `s` from `i` on as a 24-bit number, missing ones as zero. */
  function Word(s: seq<Byte>, i: nat): (n: nat)
    ensures n < 0x100_0000
  {
    At(s, i) * 0x1_0000 + At(s, i + 1) * 0x100 + At(s, i + 2)
  }

  /** Sextet `k` of a 24-bit number, the most significant first. */
  function SextetOf(n: nat, k: nat): (v: Sextet)
    requires n < 0x100_0000 && k < 4
  {
    if k == 0 then n / 0x4_0000
    else if k == 1 then n / 0x1000 % 64
    else if k == 2 then n / 64 % 64
    else n % 64
  }

  lemma SextetsMake(n: nat)
    requires n < 0x100_0000
    ensures n == Make(SextetOf(n, 0), SextetOf(n, 1), SextetOf(n, 2), SextetOf(n, 3))
  {
  }

  function Chunk(s: seq<Byte>, i: nat): (n: nat)
    requires i < |s|
    ensures 1 <= n <= 3 && i + n <= |s|
  {
    if |s| - i < 3 then |s| - i else 3
  }

  function Letters(n: nat, take: nat): (t: seq<char>)
    requires n < 0x100_0000 && take <= 4
    ensures |t| == take && forall k | 0 <= k < take :: t[k] == Letter(SextetOf(n, k))
  {
    seq(take, k requires 0 <= k < take => Letter(SextetOf(n, k)))
  }

  function Encode(s: seq<Byte>, i: nat): (t: seq<char>)
    requires i <= |s|
    decreases |s| - i
  {
    if i == |s| then [] else Letters(Word(s, i), Chunk(s, i) + 1) + Encode(s, i + Chunk(s, i))
  }

  method B64Url(s: seq<Byte>, out: seq<char>) returns (r: seq<char>)
    ensures r == out + Encode(s, 0)
  {
    r := out;
    var i := 0;
    while i < |s|
      invariant 0 <= i <= |s|
      invariant r + Encode(s, i) == out + Encode(s, 0)
      decreases |s| - i
    {
      var n, take := Word(s, i), Chunk(s, i) + 1;
      ghost var before := r;
      for k := 0 to take
        invariant r == before + Letters(n, take)[..k]
      {
        r := r + [Letter(SextetOf(n, k))];
      }
      Associate(before, Letters(n, take), Encode(s, i + Chunk(s, i)));
      i := i + Chunk(s, i);
    }
    assert r + [] == r;
  }

  // ----- Decoding

  function Value(t: seq<char>, i: nat): (r: Result<Sextet>) {
    if i < |t| then Digit(t[i]) else Ok(0)
  }

  /** Up to four letters as a 24-bit number. */
  function Group(t: seq<char>, i: nat): (r: Result<nat>)
    ensures r.Ok? ==> r.value < 0x100_0000
  {
    var a, b, c, d := Value(t, i), Value(t, i + 1), Value(t, i + 2), Value(t, i + 3);
    if a.Err? || b.Err? || c.Err? || d.Err? then Err
    else Ok(Make(a.value, b.value, c.value, d.value))
  }

  function Make(a: Sextet, b: Sextet, c: Sextet, d: Sextet): (n: nat)
    ensures n < 0x100_0000
  {
    var x: int, y: int, z: int, w: int := a, b, c, d;
    x * 0x4_0000 + y * 0x1000 + z * 64 + w
  }

  /** The first `take` bytes of a 24-bit number. */
  function BytesOf(n: nat, take: nat): (s: seq<Byte>)
    requires n < 0x100_0000 && 1 <= take <= 3
    ensures |s| == take
  {
    [n / 0x1_0000, n / 0x100 % 256, n % 256][..take]
  }

  /** No bits are set behind them. */
  predicate Clean(n: nat, take: nat) {
    (take == 1 ==> n % 0x1_0000 == 0) && (take == 2 ==> n % 0x100 == 0)
  }

  function Decode(t: seq<char>, i: nat): (r: Result<seq<Byte>>)
    requires i <= |t|
    decreases |t| - i
  {
    if i == |t| then Ok([])
    else if i + 1 == |t| then Err
    else
      var m := if |t| - i < 4 then |t| - i else 4;
      var n := Group(t, i);
      if n.Err? || !Clean(n.value, m - 1) then Err
      else
        var rest := Decode(t, i + m);
        if rest.Err? then Err else Ok(BytesOf(n.value, m - 1) + rest.value)
  }

  lemma SextetsOfMake(a: Sextet, b: Sextet, c: Sextet, d: Sextet)
    ensures var n := Make(a, b, c, d);
            a == SextetOf(n, 0) && b == SextetOf(n, 1) && c == SextetOf(n, 2) && d == SextetOf(n, 3)
  {
    var n := Make(a, b, c, d);
    var x: int, y: int, z: int, w: int := a, b, c, d;
    assert n / 64 == x * 0x1000 + y * 64 + z;
    assert n / 0x1000 == x * 64 + y;
  }

  lemma MakeIff(n: nat, a: Sextet, b: Sextet, c: Sextet, d: Sextet)
    requires n < 0x100_0000
    ensures Make(a, b, c, d) == n <==> a == SextetOf(n, 0) && b == SextetOf(n, 1) && c == SextetOf(n, 2) && d == SextetOf(n, 3)
  {
    SextetsOfMake(a, b, c, d);
    SextetsMake(n);
  }

  lemma CleanSextets(n: nat, take: nat)
    requires n < 0x100_0000 && 1 <= take <= 3 && Clean(n, take)
    ensures take == 1 ==> SextetOf(n, 2) == 0 && SextetOf(n, 3) == 0
    ensures take == 2 ==> SextetOf(n, 3) == 0
  {
    if take == 1 {
      assert n == 64 * (1024 * (n / 0x1_0000)) && n / 64 == 64 * (16 * (n / 0x1_0000));
    }
    if take == 2 { assert n == 64 * (4 * (n / 0x100)); }
  }

  /** `t` holds the letters of `n` at `i`, and ends there unless they are four. */
  predicate Holds(t: seq<char>, i: nat, n: nat, take: nat)
    requires n < 0x100_0000 && 1 <= take <= 3
  {
    && i + take + 1 <= |t| && (take < 3 ==> i + take + 1 == |t|)
    && forall k | 0 <= k <= take :: t[i + k] == Letter(SextetOf(n, k))
  }

  lemma GroupIff(t: seq<char>, i: nat, n: nat, take: nat)
    requires n < 0x100_0000 && 1 <= take <= 3 && Clean(n, take)
    requires i + take + 1 <= |t| && (take < 3 ==> i + take + 1 == |t|)
    ensures Group(t, i) == Ok(n) <==> Holds(t, i, n, take)
  {
    CleanSextets(n, take);
    forall k | 0 <= k < 4 ensures i + k < |t| ==> (Digit(t[i + k]) == Ok(SextetOf(n, k)) <==> t[i + k] == Letter(SextetOf(n, k))) {
      if i + k < |t| { DigitIff(t[i + k], SextetOf(n, k)); }
    }
    if Group(t, i) == Ok(n) {
      MakeIff(n, Value(t, i).value, Value(t, i + 1).value, Value(t, i + 2).value, Value(t, i + 3).value);
      forall k | 0 <= k <= take ensures t[i + k] == Letter(SextetOf(n, k)) {
        assert Value(t, i + k) == Ok(SextetOf(n, k));
      }
    }
    if Holds(t, i, n, take) {
      forall k | 0 <= k < 4 ensures Value(t, i + k) == Ok(SextetOf(n, k)) {
      }
      MakeIff(n, SextetOf(n, 0), SextetOf(n, 1), SextetOf(n, 2), SextetOf(n, 3));
      assert Value(t, i + 0) == Ok(SextetOf(n, 0)) && Value(t, i + 1) == Ok(SextetOf(n, 1));
      assert Value(t, i + 2) == Ok(SextetOf(n, 2)) && Value(t, i + 3) == Ok(SextetOf(n, 3));
    }
  }

  // ----- The two are inverse

  lemma WordBytes(s: seq<Byte>, i: nat)
    requires i < |s|
    ensures Clean(Word(s, i), Chunk(s, i)) && BytesOf(Word(s, i), Chunk(s, i)) == s[i..i + Chunk(s, i)]
  {
    var n := Word(s, i);
    assert n / 0x1_0000 == At(s, i) && n / 0x100 == At(s, i) * 256 + At(s, i + 1);
  }

  lemma BytesWord(n: nat, take: nat)
    requires n < 0x100_0000 && 1 <= take <= 3 && Clean(n, take)
    ensures Word(BytesOf(n, take), 0) == n
  {
    assert n / 0x100 == n / 0x1_0000 * 256 + n / 0x100 % 256;
  }

  lemma DecodeGroup(t: seq<char>, i: nat, n: nat, take: nat, rest: seq<Byte>)
    requires n < 0x100_0000 && 1 <= take <= 3 && Clean(n, take) && Holds(t, i, n, take)
    requires Decode(t, i + take + 1) == Ok(rest)
    ensures Decode(t, i) == Ok(BytesOf(n, take) + rest)
  {
    GroupIff(t, i, n, take);
  }

  lemma HoldsFirst(pre: seq<char>, s: seq<Byte>, i: nat)
    requires i < |s|
    ensures Holds(pre + Encode(s, i), |pre|, Word(s, i), Chunk(s, i))
  {
    var t, l := pre + Encode(s, i), Letters(Word(s, i), Chunk(s, i) + 1);
    assert forall k | 0 <= k <= Chunk(s, i) :: t[|pre| + k] == l[k];
    if Chunk(s, i) < 3 { assert Encode(s, i + Chunk(s, i)) == []; }
  }

  lemma EncodeSplit(pre: seq<char>, s: seq<Byte>, i: nat)
    requires i < |s|
    ensures pre + Encode(s, i) == (pre + Letters(Word(s, i), Chunk(s, i) + 1)) + Encode(s, i + Chunk(s, i))
  {
    Associate(pre, Letters(Word(s, i), Chunk(s, i) + 1), Encode(s, i + Chunk(s, i)));
  }

  lemma {:induction false} DecodeEncoded(pre: seq<char>, s: seq<Byte>, i: nat)
    requires i <= |s|
    ensures Decode(pre + Encode(s, i), |pre|) == Ok(s[i..])
    decreases |s| - i
  {
    if i < |s| {
      var n, take := Word(s, i), Chunk(s, i);
      DecodeEncoded(pre + Letters(n, take + 1), s, i + take);
      EncodeSplit(pre, s, i);
      HoldsFirst(pre, s, i);
      WordBytes(s, i);
      DecodeGroup(pre + Encode(s, i), |pre|, n, take, s[i + take..]);
      Rejoin(s, i, i + take);
    } else {
      assert s[i..] == [];
    }
  }

  /** Decoding inverts encoding, for all byte strings. */
  lemma DecodeEncode(s: seq<Byte>)
    ensures Decode(Encode(s, 0), 0) == Ok(s)
  {
    DecodeEncoded([], s, 0);
    assert [] + Encode(s, 0) == Encode(s, 0);
    assert s[0..] == s;
  }

  lemma WordShift(a: seq<Byte>, s: seq<Byte>, i: nat)
    requires i < |s|
    ensures Word(a + s, |a| + i) == Word(s, i) && Chunk(a + s, |a| + i) == Chunk(s, i)
  {
    assert forall k: nat :: At(a + s, |a| + k) == At(s, k);
    assert At(a + s, |a| + (i + 1)) == At(s, i + 1) && At(a + s, |a| + (i + 2)) == At(s, i + 2);
  }

  lemma {:induction false} EncodeShift(a: seq<Byte>, s: seq<Byte>, i: nat)
    requires i <= |s|
    ensures Encode(a + s, |a| + i) == Encode(s, i)
    decreases |s| - i
  {
    if i < |s| {
      EncodeShift(a, s, i + Chunk(s, i));
      WordShift(a, s, i);
    }
  }

  /** A whole chunk in front, or a last one. */
  lemma EncodeFront(c: seq<Byte>, rest: seq<Byte>)
    requires 1 <= |c| <= 3 && (|c| < 3 ==> rest == [])
    ensures Encode(c + rest, 0) == Letters(Word(c, 0), |c| + 1) + Encode(rest, 0)
  {
    EncodeShift(c, rest, 0);
    assert Chunk(c + rest, 0) == |c| && Word(c + rest, 0) == Word(c, 0);
  }

  lemma LettersHeld(t: seq<char>, i: nat, n: nat, take: nat)
    requires n < 0x100_0000 && 1 <= take <= 3 && Holds(t, i, n, take)
    ensures t[i..i + take + 1] == Letters(n, take + 1)
  {
  }

  lemma FirstGroup(t: seq<char>, i: nat) returns (n: nat, m: nat)
    requires i < |t| && Decode(t, i).Ok?
    ensures n < 0x100_0000 && 2 <= m <= 4 && i + m <= |t| && (m < 4 ==> i + m == |t|)
    ensures Clean(n, m - 1) && Holds(t, i, n, m - 1)
    ensures Decode(t, i + m).Ok? && Decode(t, i).value == BytesOf(n, m - 1) + Decode(t, i + m).value
  {
    m := if |t| - i < 4 then |t| - i else 4;
    n := Group(t, i).value;
    GroupIff(t, i, n, m - 1);
  }

  lemma {:induction false} EncodeDecoded(t: seq<char>, i: nat)
    requires i <= |t| && Decode(t, i).Ok?
    ensures Encode(Decode(t, i).value, 0) == t[i..]
    decreases |t| - i
  {
    if i < |t| {
      var n, m := FirstGroup(t, i);
      EncodeDecoded(t, i + m);
      BytesWord(n, m - 1);
      EncodeFront(BytesOf(n, m - 1), Decode(t, i + m).value);
      LettersHeld(t, i, n, m - 1);
      Rejoin(t, i, i + m);
    }
  }

  /** The encoding, letter by letter: letter `4 * c + j` stands for sextet `j` of bytes `3 * c`,
      `3 * c + 1` and `3 * c + 2`, those missing at the end being zero. */
  lemma {:induction false} EncodeAt(s: seq<Byte>, i: nat, c: nat, j: nat)
    requires i <= |s| && j < 4 && 4 * c + j < |Encode(s, i)|
    ensures i + 3 * c < |s| && Encode(s, i)[4 * c + j] == Letter(SextetOf(Word(s, i + 3 * c), j))
    decreases c
  {
    if c > 0 { EncodeAt(s, i + Chunk(s, i), c - 1, j); }
  }

  /** One letter more than bytes for every chunk of up to three. */
  lemma {:induction false} EncodeSize(s: seq<Byte>, i: nat)
    requires i <= |s|
    ensures |Encode(s, i)| == (4 * (|s| - i) + 2) / 3
    decreases |s| - i
  {
    if i < |s| { EncodeSize(s, i + Chunk(s, i)); }
  }

  /** The decoder accepts exactly the strings the encoder makes. */
  lemma DecodeIff(t: seq<char>, s: seq<Byte>)
    ensures Decode(t, 0) == Ok(s) <==> t == Encode(s, 0)
  {
    DecodeEncode(s);
    if Decode(t, 0) == Ok(s) {
      EncodeDecoded(t, 0);
      assert t[0..] == t;
    }
  }
}
