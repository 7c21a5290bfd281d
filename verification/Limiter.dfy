/** Which limiter shed a request: the bounded scan of a 429 body (`find_subslice` and
    `limiter_bucket` in examples/http_saturation.rs).  Bytes are written as characters. */
module Limiter {
  import opened Basics

  /** The first place from `i` on where `needle` stands. */
  function FindFrom(hay: seq<char>, needle: seq<char>, i: nat): (r: Option<nat>)
    ensures r.Some? ==> i <= r.value && StandsAt(hay, needle, r.value)
    ensures r.Some? ==> forall j | i <= j < r.value :: !StandsAt(hay, needle, j)
    ensures r.None? ==> forall j | i <= j :: !StandsAt(hay, needle, j)
    decreases |hay| - i
  {
    if i + |needle| > |hay| then None
    else if StandsAt(hay, needle, i) then Some(i)
    else FindFrom(hay, needle, i + 1)
  }

  function FindSubslice(hay: seq<char>, needle: seq<char>): (r: Option<nat>) {
    if needle == [] || |hay| < |needle| then None else FindFrom(hay, needle, 0)
  }

  lemma FoundIs(hay: seq<char>, needle: seq<char>, i: nat)
    requires needle != [] && StandsAt(hay, needle, i) && forall j | 0 <= j < i :: !StandsAt(hay, needle, j)
    ensures FindSubslice(hay, needle) == Some(i)
  {
  }

  const KNOWN := 5
  const UNATTRIBUTED := 5

  const TAG: seq<char> := "\"limiter\""

  function Id(k: nat): (id: seq<char>)
    requires k < KNOWN
    ensures 5 <= |id| <= 8
  {
    match k
    case 0 => "shaper"
    case 1 => "admin"
    case 2 => "token"
    case 3 => "export"
    case _ => "login_ip"
  }

  /** The bytes behind the tag that are searched for identifier `k`. */
  function Window(tail: seq<char>, k: nat): (w: seq<char>)
    requires k < KNOWN
  {
    if |tail| < |Id(k)| + 8 then tail else tail[..|Id(k)| + 8]
  }

  predicate Seen(tail: seq<char>, k: nat)
    requires k < KNOWN
  {
    FindSubslice(Window(tail, k), Id(k)).Some?
  }

  /** The first identifier that is seen, from `k` on. */
  function FirstSeen(tail: seq<char>, k: nat): (b: nat)
    requires k <= KNOWN
    ensures k <= b <= UNATTRIBUTED
    decreases KNOWN - k
  {
    if k == KNOWN then UNATTRIBUTED else if Seen(tail, k) then k else FirstSeen(tail, k + 1)
  }

  function Bucket(body: seq<char>): (b: nat)
    ensures b <= UNATTRIBUTED
  {
    var pos := FindSubslice(body, TAG);
    if pos.None? then UNATTRIBUTED else FirstSeen(body[pos.value + |TAG|..], 0)
  }

  method LimiterBucket(body: seq<char>) returns (b: nat)
    ensures b == Bucket(body)
    ensures (forall i :: !StandsAt(body, TAG, i)) ==> b == UNATTRIBUTED
  {
    var pos := FindSubslice(body, TAG);
    if pos.None? { return UNATTRIBUTED; }
    var tail := body[pos.value + |TAG|..];
    var k := 0;
    while k < KNOWN
      invariant 0 <= k <= KNOWN
      invariant FirstSeen(tail, 0) == FirstSeen(tail, k)
    {
      if FindSubslice(Window(tail, k), Id(k)).Some? { return k; }
      k := k + 1;
    }
    return UNATTRIBUTED;
  }

  /** An identifier is seen exactly when it begins within the first nine bytes. */
  lemma SeenIff(tail: seq<char>, k: nat)
    requires k < KNOWN
    ensures Seen(tail, k) <==> exists p :: 0 <= p <= 8 && StandsAt(tail, Id(k), p)
  {
    var w, id := Window(tail, k), Id(k);
    if Seen(tail, k) {
      var p := FindSubslice(w, id).value;
      assert StandsAt(w, id, p);
      assert StandsAt(tail, id, p);
    }
    if exists p :: 0 <= p <= 8 && StandsAt(tail, id, p) {
      var p :| 0 <= p <= 8 && StandsAt(tail, id, p);
      assert StandsAt(w, id, p);
    }
  }

  // ----- What follows the tag

  /** The value `v` as a JSON field has it, up to what follows it. */
  function Tail(v: seq<char>, sep: char, rest: seq<char>): (t: seq<char>) {
    [':', '"'] + v + ['"', sep] + rest
  }

  predicate Separator(c: char) {
    c == ',' || c == '}'
  }

  predicate WordChar(c: char) {
    'a' <= c <= 'z' || c == '_'
  }

  lemma IdIsWord(k: nat, i: nat)
    requires k < KNOWN && i < |Id(k)|
    ensures WordChar(Id(k)[i])
  {
    match k
    case 0 => assert "shaper"[i] in "shaper";
    case 1 => assert "admin"[i] in "admin";
    case 2 => assert "token"[i] in "token";
    case 3 => assert "export"[i] in "export";
    case _ => assert "login_ip"[i] in "login_ip";
  }

  /** Where an identifier can stand: inside the value, or behind its separator. */
  lemma WhereItStands(v: seq<char>, sep: char, rest: seq<char>, k: nat, p: nat)
    requires k < KNOWN && Separator(sep) && '"' !in v && StandsAt(Tail(v, sep, rest), Id(k), p)
    ensures p >= |v| + 4 || (2 <= p && StandsAt(v, Id(k), p - 2))
  {
    var t, id := Tail(v, sep, rest), Id(k);
    assert t[0] == ':' && t[1] == '"' && t[|v| + 2] == '"' && t[|v| + 3] == sep;
    IdIsWord(k, 0);
    assert t[p + 0] == id[0];
    if 2 <= p < |v| + 2 {
      if p + |id| > |v| + 2 {
        IdIsWord(k, |v| + 2 - p);
      }
      forall i | 0 <= i < |id| ensures v[p - 2 + i] == id[i] {
        assert t[p + i] == id[i] && t[2 + (p - 2 + i)] == v[p - 2 + i];
      }
    }
  }

  /** No identifier stands inside one that is listed after it. */
  lemma NoNesting(j: nat, k: nat, q: nat)
    requires j < k < KNOWN && q + |Id(j)| <= |Id(k)|
    ensures !StandsAt(Id(k), Id(j), q)
  {
    var a, b := Id(j), Id(k);
    assert b[q + 0] != a[0];
  }

  lemma NotSeen(v: seq<char>, sep: char, rest: seq<char>, j: nat)
    requires j < KNOWN && Separator(sep) && '"' !in v && |v| >= 5 && forall q :: !StandsAt(v, Id(j), q)
    ensures !Seen(Tail(v, sep, rest), j)
  {
    SeenIff(Tail(v, sep, rest), j);
    forall p: nat | p <= 8 ensures !StandsAt(Tail(v, sep, rest), Id(j), p) {
      if StandsAt(Tail(v, sep, rest), Id(j), p) { WhereItStands(v, sep, rest, j, p); }
    }
  }

  lemma {:induction false} SkipTo(tail: seq<char>, i: nat, k: nat)
    requires i <= k <= KNOWN && forall j | i <= j < k :: !Seen(tail, j)
    ensures FirstSeen(tail, i) == FirstSeen(tail, k)
    decreases k - i
  {
    if i < k { SkipTo(tail, i + 1, k); }
  }

  /** A known identifier is found, whatever follows it. */
  lemma KnownSeen(k: nat, sep: char, rest: seq<char>)
    requires k < KNOWN && Separator(sep)
    ensures FirstSeen(Tail(Id(k), sep, rest), 0) == k
  {
    var v := Id(k);
    var t := Tail(v, sep, rest);
    forall i | 0 <= i < |v| ensures v[i] != '"' && t[2 + i] == v[i] {
      IdIsWord(k, i);
    }
    forall j | 0 <= j < k ensures !Seen(t, j) {
      forall q: nat ensures !StandsAt(v, Id(j), q) {
        if q + |Id(j)| <= |v| { NoNesting(j, k, q); }
      }
      NotSeen(v, sep, rest, j);
    }
    SkipTo(t, 0, k);
    assert StandsAt(t, v, 2);
    SeenIff(t, k);
  }

  /** A body whose first tag is followed by a known identifier is attributed to it. */
  lemma KnownAttributed(pre: seq<char>, k: nat, sep: char, rest: seq<char>)
    requires k < KNOWN && Separator(sep)
    requires forall j | 0 <= j < |pre| :: !StandsAt(pre + TAG + Tail(Id(k), sep, rest), TAG, j)
    ensures Bucket(pre + TAG + Tail(Id(k), sep, rest)) == k
  {
    var body := pre + TAG + Tail(Id(k), sep, rest);
    assert StandsAt(body, TAG, |pre|);
    FoundIs(body, TAG, |pre|);
    assert body[|pre| + |TAG|..] == Tail(Id(k), sep, rest);
    KnownSeen(k, sep, rest);
  }

  /** The tag does not begin in `pre`, though it may follow. */
  predicate FirstTag(pre: seq<char>) {
    forall j | 0 <= j < |pre| :: !StandsAt(pre + "\"limiter\"", "\"limiter\"", j)
  }

  lemma TagsBefore(pre: seq<char>, after: seq<char>, j: nat)
    requires j < |pre|
    ensures StandsAt(pre + TAG + after, TAG, j) <==> StandsAt(pre + TAG, TAG, j)
  {
    var s, t := pre + TAG, pre + TAG + after;
    assert forall i | 0 <= i < |s| :: s[i] == t[i];
  }

  /** The five limiters, as a body names them. */
  lemma NamedAttributed(pre: seq<char>, k: nat, sep: char, rest: seq<char>)
    requires k < 5 && Separator(sep) && FirstTag(pre)
    ensures Bucket(pre + "\"limiter\":\"" + ["shaper", "admin", "token", "export", "login_ip"][k] + "\"" + [sep] + rest) == k
  {
    var id := ["shaper", "admin", "token", "export", "login_ip"][k];
    assert id == Id(k);
    forall j | 0 <= j < |pre| ensures !StandsAt(pre + TAG + Tail(Id(k), sep, rest), TAG, j) {
      TagsBefore(pre, Tail(Id(k), sep, rest), j);
    }
    KnownAttributed(pre, k, sep, rest);
    SpelledOut(pre, id, sep, rest);
  }

  lemma SpelledOut(pre: seq<char>, id: seq<char>, sep: char, rest: seq<char>)
    ensures pre + TAG + Tail(id, sep, rest) == pre + "\"limiter\":\"" + id + "\"" + [sep] + rest
  {
    assert "\"limiter\":\"" == TAG + [':', '"'];
  }

  /** The bound of the scan is meant to keep a later field from being taken for the value.  For
      a value that holds no known identifier it does so, whatever follows, exactly when the
      value has at least five bytes. */
  lemma UnknownUnattributedIff(v: seq<char>, sep: char)
    requires Separator(sep) && '"' !in v && forall k, q :: 0 <= k < KNOWN ==> !StandsAt(v, Id(k), q)
    ensures (forall rest: seq<char> :: FirstSeen(Tail(v, sep, rest), 0) == UNATTRIBUTED) <==> |v| >= 5
  {
    if |v| >= 5 {
      forall rest: seq<char> ensures FirstSeen(Tail(v, sep, rest), 0) == UNATTRIBUTED {
        forall j | 0 <= j < KNOWN ensures !Seen(Tail(v, sep, rest), j) {
          NotSeen(v, sep, rest, j);
        }
        SkipTo(Tail(v, sep, rest), 0, KNOWN);
      }
    } else {
      var t := Tail(v, sep, Id(1));
      assert StandsAt(t, Id(1), |v| + 4);
      SeenIff(t, 1);
      assert FirstSeen(t, 1) == 1;
    }
  }
}
