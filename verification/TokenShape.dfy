/** The compact three-segment tokens (section 7.1 of RFC 7515) that the claims fuzz target
    shapes from arbitrary bytes (fuzz/fuzz_targets/aat_parse.rs). */
module TokenShape {
  import opened Basics
  import opened Base64Url

  /** The bytes of one segment: a third of the input, rounded up. */
  function Third(n: nat): (m: nat)
    ensures m >= 1 && 3 * m >= n
  {
    if n == 0 then 1 else (n + 2) / 3
  }

  function Upto(data: seq<Byte>, k: nat): (i: nat)
    ensures i <= |data|
  {
    if k * Third(|data|) < |data| then k * Third(|data|) else |data|
  }

  /** Piece `k` of the input; empty behind its end. */
  function Piece(data: seq<Byte>, k: nat): (s: seq<Byte>) {
    Later(data, k);
    data[Upto(data, k)..Upto(data, k + 1)]
  }

  lemma Later(data: seq<Byte>, k: nat)
    ensures Upto(data, k) <= Upto(data, k + 1)
  {
    assert (k + 1) * Third(|data|) == k * Third(|data|) + Third(|data|);
  }

  predicate Present(data: seq<Byte>, k: nat) {
    k * Third(|data|) < |data|
  }

  /** Segment `k`: the encoded piece, or the padding `A` where the input has run out. */
  function Segment(data: seq<Byte>, k: nat): (t: seq<char>) {
    if Present(data, k) then Encode(Piece(data, k), 0) else ['A']
  }

  /** The first `k` segments with dots between them. */
  function Joined(data: seq<Byte>, k: nat): (t: seq<char>) {
    if k == 0 then [] else if k == 1 then Segment(data, 0)
    else Joined(data, k - 1) + ['.'] + Segment(data, k - 1)
  }

  function Dots(t: seq<char>): (n: nat) {
    if t == [] then 0 else Dots(t[..|t| - 1]) + if t[|t| - 1] == '.' then 1 else 0
  }

  lemma {:induction false} DotsAdd(a: seq<char>, b: seq<char>)
    ensures Dots(a + b) == Dots(a) + Dots(b)
    decreases |b|
  {
    if b == [] {
      assert a + b == a;
    } else {
      DotsAdd(a, b[..|b| - 1]);
      assert (a + b)[..|a + b| - 1] == a + b[..|b| - 1];
    }
  }

  lemma {:induction false} NoDots(t: seq<char>)
    requires '.' !in t
    ensures Dots(t) == 0
  {
    if t != [] { NoDots(t[..|t| - 1]); }
  }

  lemma {:induction false} EncodedNoDot(s: seq<Byte>, i: nat)
    requires i <= |s|
    ensures '.' !in Encode(s, i)
    decreases |s| - i
  {
    if i < |s| {
      EncodedNoDot(s, i + Chunk(s, i));
      var l := Letters(Word(s, i), Chunk(s, i) + 1);
      forall k | 0 <= k < |l| ensures l[k] != '.' {
        DigitIff(l[k], SextetOf(Word(s, i), k));
      }
    }
  }

  lemma SegmentNoDot(data: seq<Byte>, k: nat)
    ensures '.' !in Segment(data, k) && Dots(Segment(data, k)) == 0
  {
    if Present(data, k) { EncodedNoDot(Piece(data, k), 0); }
    NoDots(Segment(data, k));
  }

  lemma {:induction false} JoinedDots(data: seq<Byte>, k: nat)
    requires k >= 1
    ensures Dots(Joined(data, k)) == k - 1
  {
    SegmentNoDot(data, k - 1);
    if k > 1 {
      JoinedDots(data, k - 1);
      DotsAdd(Joined(data, k - 1) + ['.'], Segment(data, k - 1));
      DotsAdd(Joined(data, k - 1), ['.']);
      assert Dots(['.'][..0]) == 0;
    }
  }

  /** The token while it is built: what stands in front of segment `k`. */
  function Front(data: seq<Byte>, k: nat): (t: seq<char>) {
    if k == 0 then [] else Joined(data, k) + ['.']
  }

  lemma JoinedNext(data: seq<Byte>, k: nat)
    ensures Joined(data, k + 1) == Front(data, k) + Segment(data, k)
  {
    if k == 0 { assert [] + Segment(data, 0) == Segment(data, 0); }
  }

  method Fill(data: seq<Byte>) returns (token: seq<char>, i: nat)
    requires data != []
    ensures 0 < i <= 3 && token == Joined(data, i) && (i < 3 ==> !Present(data, i))
  {
    var third := Third(|data|);
    token, i := [], 0;
    while i < 3 && i * third < |data|
      invariant 0 <= i <= 3 && token == Joined(data, i)
    {
      if i > 0 { token := token + ['.']; }
      JoinedNext(data, i);
      token := B64Url(Piece(data, i), token);
      i := i + 1;
    }
  }

  lemma SegmentAbsent(data: seq<Byte>, i: nat, k: nat)
    requires i <= k && !Present(data, i)
    ensures Segment(data, k) == ['A']
  {
    Absent(data, i, k);
  }

  lemma PadOne(data: seq<Byte>, k: nat)
    requires 0 < k && Segment(data, k) == ['A']
    ensures Joined(data, k) + ['.'] + ['A'] == Joined(data, k + 1)
  {
    JoinedNext(data, k);
  }

  method Pad(data: seq<Byte>, start: seq<char>, i: nat) returns (token: seq<char>)
    requires 0 < i <= 3 && start == Joined(data, i) && forall k | i <= k < 3 :: Segment(data, k) == ['A']
    ensures token == Joined(data, 3)
  {
    token := start;
    ghost var k := i;
    JoinedDots(data, k);
    while Dots(token) < 2
      invariant i <= k <= 3 && token == Joined(data, k) && Dots(token) == k - 1
      decreases 3 - k
    {
      PadOne(data, k);
      JoinedDots(data, k + 1);
      token := token + ['.'] + ['A'];
      k := k + 1;
    }
  }

  /** The token for `data`; none for the empty input. */
  method Shape(data: seq<Byte>) returns (r: Result<seq<char>>)
    ensures r == if data == [] then Err else Ok(Joined(data, 3))
  {
    if data == [] { return Err; }
    var token, i := Fill(data);
    forall k | i <= k < 3 ensures Segment(data, k) == ['A'] {
      SegmentAbsent(data, i, k);
    }
    token := Pad(data, token, i);
    return Ok(token);
  }

  lemma Absent(data: seq<Byte>, i: nat, k: nat)
    requires i <= k && !Present(data, i)
    ensures !Present(data, k)
  {
    assert k * Third(|data|) == i * Third(|data|) + (k - i) * Third(|data|);
  }

  // ----- What the token carries

  /** A token has exactly two dots. */
  lemma TwoDots(data: seq<Byte>)
    ensures Dots(Joined(data, 3)) == 2
    ensures Joined(data, 3) == Segment(data, 0) + ['.'] + Segment(data, 1) + ['.'] + Segment(data, 2)
    ensures forall k | 0 <= k < 3 :: '.' !in Segment(data, k)
  {
    JoinedDots(data, 3);
    assert Joined(data, 2) == Segment(data, 0) + ['.'] + Segment(data, 1);
    forall k | 0 <= k < 3 ensures '.' !in Segment(data, k) {
      SegmentNoDot(data, k);
    }
  }

  /** The three pieces are the whole input, in order. */
  lemma PiecesAreAll(data: seq<Byte>)
    ensures Piece(data, 0) + Piece(data, 1) + Piece(data, 2) == data
    ensures |data| <= 3 * |Piece(data, 0)| <= |data| + 2 && |Piece(data, 2)| <= |Piece(data, 1)| <= |Piece(data, 0)|
    ensures Piece(data, 2) == [] || |Piece(data, 1)| == |Piece(data, 0)|
  {
    Later(data, 0);
    Later(data, 1);
    Later(data, 2);
    assert Upto(data, 0) == 0 && Upto(data, 3) == |data|;
  }

  /** A segment decodes to its piece, and only if there is one: the padding is no base64. */
  lemma SegmentDecodes(data: seq<Byte>, k: nat)
    ensures Decode(Segment(data, k), 0) == if Present(data, k) then Ok(Piece(data, k)) else Err
    ensures !Present(data, k) ==> Segment(data, k) == "A"
  {
    if Present(data, k) { DecodeEncode(Piece(data, k)); }
  }

  lemma EarlierPresent(data: seq<Byte>, k: nat)
    requires k < 3 && Present(data, 2)
    ensures Present(data, k)
  {
    if !Present(data, k) { Absent(data, k, 2); }
  }

  /** All three segments decode exactly when the input is not of length 1, 2 or 4. */
  lemma AllDecodeIff(data: seq<Byte>)
    requires data != []
    ensures (forall k: nat | k < 3 :: Decode(Segment(data, k), 0).Ok?) <==> |data| != 1 && |data| != 2 && |data| != 4
  {
    LastPresent(|data|);
    SegmentDecodes(data, 2);
    if Present(data, 2) {
      forall k: nat | k < 3 ensures Decode(Segment(data, k), 0).Ok? {
        EarlierPresent(data, k);
        SegmentDecodes(data, k);
      }
    }
  }

  lemma LastPresent(n: nat)
    requires n > 0
    ensures 2 * Third(n) < n <==> n != 1 && n != 2 && n != 4
  {
    var m := Third(n);
    assert 3 * m - 2 <= n <= 3 * m;
  }

  lemma {:induction false} EncodedLength(s: seq<Byte>, i: nat)
    requires i <= |s|
    ensures |Encode(s, i)| <= 2 * (|s| - i)
    decreases |s| - i
  {
    if i < |s| { EncodedLength(s, i + Chunk(s, i)); }
  }

  lemma {:induction false} JoinedLength(data: seq<Byte>, k: nat)
    requires k > 0 && Present(data, k - 1)
    ensures |Joined(data, k)| <= 2 * Upto(data, k) + (k - 1)
  {
    EncodedLength(Piece(data, k - 1), 0);
    Later(data, k - 1);
    if k > 1 {
      assert (k - 1) * Third(|data|) == (k - 2) * Third(|data|) + Third(|data|);
      JoinedLength(data, k - 1);
    }
  }

  /** Before padding the token is at most twice the input and two dots long, which is what the
      target reserves. */
  lemma UnpaddedLength(data: seq<Byte>, k: nat)
    requires 0 < k <= 3 && Present(data, k - 1)
    ensures |Joined(data, k)| <= 2 * |data| + 2
  {
    JoinedLength(data, k);
  }
}
