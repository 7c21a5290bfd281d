/** The request templates of a plane and the round robin over them (`Corpus::next` and the
    blended part of `build_corpus` in examples/http_saturation.rs). */
module Corpus {

  datatype Op = Read | Issuance | Login

  /** A request template; `body` stands for its bytes. */
  datatype Template = Template(body: seq<char>, op: Op)

  const U64 := 0x1_0000_0000_0000_0000

  /** The templates and the shared cursor, an atomic counter of 64 bits. */
  class RoundRobin {
    const templates: seq<Template>
    var cursor: nat

    ghost predicate Valid()
      reads this
    {
      templates != [] && cursor < U64
    }

    constructor (ts: seq<Template>)
      requires ts != []
      ensures Valid() && templates == ts && cursor == 0
    {
      templates, cursor := ts, 0;
    }

    /** One atomic step, whichever worker takes it. */
    method Next() returns (t: Template)
      requires Valid()
      modifies this`cursor
      ensures Valid() && t == templates[old(cursor) % |templates|]
      ensures cursor == if old(cursor) + 1 == U64 then 0 else old(cursor) + 1
    {
      var i := cursor % |templates|;
      cursor := (cursor + 1) % U64;
      t := templates[i];
    }
  }

  // ----- What the calls hand out

  /** Calls of `next`, one after the other, whichever workers make them. */
  method HandOut(corpus: RoundRobin, n: nat) returns (out: seq<Template>)
    requires corpus.Valid()
    modifies corpus`cursor
    ensures corpus.Valid() && |out| == n && corpus.cursor == (old(corpus.cursor) + n) % U64
    ensures forall i | 0 <= i < n :: out[i] == corpus.templates[(old(corpus.cursor) + i) % U64 % |corpus.templates|]
    ensures old(corpus.cursor) + n <= U64 ==> out == Given(corpus.templates, old(corpus.cursor), n)
  {
    out := [];
    ghost var start, ts := corpus.cursor, corpus.templates;
    for m := 0 to n
      invariant corpus.Valid() && corpus.templates == ts && |out| == m && corpus.cursor == (start + m) % U64
      invariant forall i | 0 <= i < m :: out[i] == ts[(start + i) % U64 % |ts|]
    {
      var t := corpus.Next();
      DivStep(start + m, U64);
      out := out + [t];
    }
    if start + n <= U64 { BeforeWrap(ts, start, n, out); }
  }

  lemma BeforeWrap(ts: seq<Template>, a: nat, n: nat, out: seq<Template>)
    requires ts != [] && a + n <= U64 && |out| == n && forall i | 0 <= i < n :: out[i] == ts[(a + i) % U64 % |ts|]
    ensures out == Given(ts, a, n)
  {
    forall i | 0 <= i < n ensures out[i] == Given(ts, a, n)[i] { SmallMod(a + i, U64); }
  }

  /** What `n` calls hand out from cursor `a` on, before it wraps. */
  function Given(ts: seq<Template>, a: nat, n: nat): (out: seq<Template>)
    requires ts != []
    ensures |out| == n && forall i | 0 <= i < n :: out[i] == ts[(a + i) % |ts|]
  {
    seq(n, i requires 0 <= i < n => ts[(a + i) % |ts|])
  }

  lemma Grows(a: int, b: int, l: int)
    requires a < b && l > 0
    ensures a * l + l <= b * l
  {
    assert (b - a - 1) * l >= 0;
    assert (b - a - 1) * l == b * l - a * l - l;
  }

  lemma Unique(a: int, r: int, b: int, s: int, l: int)
    requires 0 <= r < l && 0 <= s < l && a * l + r == b * l + s
    ensures a == b && r == s
  {
    if a < b { Grows(a, b, l); }
    if b < a { Grows(b, a, l); }
  }

  lemma Euclid(n: nat, l: nat)
    requires l > 0
    ensures n == (n / l) * l + n % l && 0 <= n % l < l
  {
  }

  lemma Quotient(n: nat, l: nat, q: nat, r: nat)
    requires r < l && n == q * l + r
    ensures n / l == q && n % l == r
  {
    Euclid(n, l);
    Unique(n / l, n % l, q, r, l);
  }

  lemma NextMultiple(q: int, l: int)
    ensures (q + 1) * l == q * l + l
  {
  }

  lemma DivStep(n: nat, l: nat)
    requires l > 0
    ensures (n + 1) / l == (if n % l == l - 1 then n / l + 1 else n / l)
    ensures (n + 1) % l == (if n % l == l - 1 then 0 else n % l + 1)
  {
    Euclid(n, l);
    DivNext(n, l, n / l, n % l);
  }

  lemma DivNext(n: nat, l: nat, q: nat, r: nat)
    requires r < l && n == q * l + r
    ensures (n + 1) / l == (if r == l - 1 then q + 1 else q) && (n + 1) % l == (if r == l - 1 then 0 else r + 1)
  {
    NextMultiple(q, l);
    if r == l - 1 { Quotient(n + 1, l, q + 1, 0); } else { Quotient(n + 1, l, q, r + 1); }
  }

  lemma AddSmall(a: nat, i: nat, l: nat)
    requires i < l
    ensures (a + i) % l == if a % l + i < l then a % l + i else a % l + i - l
  {
    Euclid(a, l);
    NextMultiple(a / l, l);
    if a % l + i < l {
      Quotient(a + i, l, a / l, a % l + i);
    } else {
      Quotient(a + i, l, a / l + 1, a % l + i - l);
    }
  }

  lemma SmallMod(i: nat, l: nat)
    requires i < l
    ensures i % l == i
  {
  }

  /** A cycle is the corpus, begun at another place. */
  lemma CycleTurns(ts: seq<Template>, a: nat)
    requires ts != []
    ensures var l := |ts|; Given(ts, a, l) == ts[a % l..] + ts[..a % l]
  {
    var l := |ts|;
    var turned := ts[a % l..] + ts[..a % l];
    forall i | 0 <= i < l ensures Given(ts, a, l)[i] == turned[i] {
      AddSmall(a, i, l);
    }
  }

  /** Any cycle of calls, wherever it starts, hands out every template exactly once. */
  lemma FullCycle(ts: seq<Template>, a: nat)
    requires ts != []
    ensures multiset(Given(ts, a, |ts|)) == multiset(ts)
  {
    CycleTurns(ts, a);
    assert ts == ts[..a % |ts|] + ts[a % |ts|..];
  }

  /** How often `n` rounds of something, and a bit more, give `t`. */
  function Rounds(ts: seq<Template>, n: nat, t: Template): (c: nat)
    requires ts != []
  {
    n / |ts| * multiset(ts)[t] + multiset(ts[..n % |ts|])[t]
  }

  lemma RoundsStep(ts: seq<Template>, n: nat, t: Template)
    requires ts != []
    ensures Rounds(ts, n + 1, t) == Rounds(ts, n, t) + if ts[n % |ts|] == t then 1 else 0
  {
    var l, j := |ts|, n % |ts|;
    DivStep(n, l);
    assert ts[..j + 1] == ts[..j] + [ts[j]];
    if j == l - 1 {
      assert ts[..l] == ts && ts[..0] == [];
      NextMultiple(n / l, multiset(ts)[t]);
    }
  }

  lemma NoRounds(ts: seq<Template>, t: Template)
    requires ts != []
    ensures Rounds(ts, 0, t) == 0
  {
    Quotient(0, |ts|, 0, 0);
    assert ts[..0] == [];
  }

  /** After `n` calls from the start every template has been handed out `n / l` times, the first
      `n % l` of them once more. */
  lemma {:induction false} EvenlyHanded(ts: seq<Template>, n: nat, t: Template)
    requires ts != []
    ensures multiset(Given(ts, 0, n))[t] == Rounds(ts, n, t)
    decreases n
  {
    if n == 0 {
      NoRounds(ts, t);
    } else {
      EvenlyHanded(ts, n - 1, t);
      RoundsStep(ts, n - 1, t);
      GivenStep(ts, n - 1, t);
    }
  }

  lemma GivenStep(ts: seq<Template>, n: nat, t: Template)
    requires ts != []
    ensures multiset(Given(ts, 0, n + 1))[t] == multiset(Given(ts, 0, n))[t] + if ts[n % |ts|] == t then 1 else 0
  {
    assert Given(ts, 0, n + 1) == Given(ts, 0, n) + [ts[n % |ts|]];
  }

  // ----- The blended plane

  function AtLeastOne(n: nat): (m: nat) {
    if n < 1 then 1 else n
  }

  /** `want` templates, taken from `from` in turn. */
  function Repeated(from: seq<Template>, want: nat): (ts: seq<Template>)
    requires from != []
    ensures |ts| == want && forall i | 0 <= i < want :: ts[i] == from[i % |from|]
  {
    seq(want, i requires 0 <= i < want => from[i % |from|])
  }

  function Issuances(read: seq<Template>): (n: nat) {
    AtLeastOne(AtLeastOne(|read|) * 8 / 90)
  }

  function Logins(read: seq<Template>): (n: nat) {
    AtLeastOne(AtLeastOne(|read|) * 2 / 90)
  }

  function Blend(read: seq<Template>, issuance: seq<Template>, login: seq<Template>, password: bool): (ts: seq<Template>)
    requires issuance != [] && login != []
  {
    read + Repeated(issuance, Issuances(read)) + if password then Repeated(login, Logins(read)) else []
  }

  /** Issuance is some 8/90 of the reads and login some 2/90, but at least one each; there is
      no login without a password. */
  method Blended(read: seq<Template>, issuance: seq<Template>, login: seq<Template>, password: bool)
    returns (ts: seq<Template>)
    requires issuance != [] && login != []
    ensures ts == Blend(read, issuance, login, password)
  {
    ts := read;
    var n := AtLeastOne(|read|);
    var want := AtLeastOne(n * 8 / 90);
    for i := 0 to want
      invariant ts == read + Repeated(issuance, want)[..i]
    {
      ts := ts + [issuance[i % |issuance|]];
    }
    if password {
      var before := ts;
      var logins := AtLeastOne(n * 2 / 90);
      for i := 0 to logins
        invariant ts == before + Repeated(login, logins)[..i]
      {
        ts := ts + [login[i % |login|]];
      }
    }
  }

  /** How many of the templates are for `op`. */
  function Count(ts: seq<Template>, op: Op, n: nat): (c: nat)
    requires n <= |ts|
  {
    if n == 0 then 0 else Count(ts, op, n - 1) + if ts[n - 1].op == op then 1 else 0
  }

  predicate AllFor(ts: seq<Template>, op: Op) {
    forall i | 0 <= i < |ts| :: ts[i].op == op
  }

  lemma {:induction false} CountAppend(s: seq<Template>, t: seq<Template>, op: Op, n: nat)
    requires n <= |t|
    ensures Count(s + t, op, |s| + n) == Count(s, op, |s|) + Count(t, op, n)
    decreases n
  {
    if n > 0 { CountAppend(s, t, op, n - 1); } else { CountPrefix(s, t, op, |s|); }
  }

  lemma {:induction false} CountPrefix(s: seq<Template>, t: seq<Template>, op: Op, n: nat)
    requires n <= |s|
    ensures Count(s + t, op, n) == Count(s, op, n)
  {
    if n > 0 { CountPrefix(s, t, op, n - 1); }
  }

  lemma {:induction false} CountAll(ts: seq<Template>, op: Op, other: Op, n: nat)
    requires AllFor(ts, op) && n <= |ts|
    ensures Count(ts, other, n) == if op == other then n else 0
  {
    if n > 0 { CountAll(ts, op, other, n - 1); }
  }

  /** What the corpus that `Blended` builds holds. */
  lemma BlendHolds(read: seq<Template>, issuance: seq<Template>, login: seq<Template>, password: bool, op: Op)
    requires issuance != [] && login != [] && AllFor(read, Read) && AllFor(issuance, Issuance) && AllFor(login, Login)
    ensures var ts := Blend(read, issuance, login, password);
            Count(ts, op, |ts|) == match op
                                   case Read => |read|
                                   case Issuance => Issuances(read)
                                   case Login => if password then Logins(read) else 0
  {
    RepeatedFor(issuance, Issuances(read), Issuance);
    RepeatedFor(login, Logins(read), Login);
    PartsHold(read, Repeated(issuance, Issuances(read)), if password then Repeated(login, Logins(read)) else [], op);
  }

  lemma RepeatedFor(from: seq<Template>, want: nat, op: Op)
    requires from != [] && AllFor(from, op)
    ensures AllFor(Repeated(from, want), op)
  {
  }

  lemma PartsHold(read: seq<Template>, issuance: seq<Template>, login: seq<Template>, op: Op)
    requires AllFor(read, Read) && AllFor(issuance, Issuance) && AllFor(login, Login)
    ensures var ts := read + issuance + login;
            Count(ts, op, |ts|) == match op case Read => |read| case Issuance => |issuance| case Login => |login|
  {
    CountAppend(read + issuance, login, op, |login|);
    CountAppend(read, issuance, op, |issuance|);
    CountAll(read, Read, op, |read|);
    CountAll(issuance, Issuance, op, |issuance|);
    CountAll(login, Login, op, |login|);
  }

  /** Counting does not depend on the order. */
  lemma CountTurned(s: seq<Template>, t: seq<Template>, op: Op)
    ensures Count(s + t, op, |s + t|) == Count(t + s, op, |t + s|)
  {
    CountAppend(s, t, op, |t|);
    CountAppend(t, s, op, |s|);
  }

  /** Every cycle, wherever it starts, carries each operation as often as the corpus holds it. */
  lemma CycleCarriesCorpus(ts: seq<Template>, op: Op, a: nat)
    requires ts != []
    ensures Count(Given(ts, a, |ts|), op, |ts|) == Count(ts, op, |ts|)
  {
    CycleTurns(ts, a);
    TurnedHolds(ts, a % |ts|, op);
  }

  lemma TurnedHolds(ts: seq<Template>, j: nat, op: Op)
    requires j <= |ts|
    ensures Count(ts[j..] + ts[..j], op, |ts|) == Count(ts, op, |ts|)
  {
    var s, t := ts[j..], ts[..j];
    CountTurned(s, t, op);
    assert t + s == ts;
  }

  lemma BuiltNumbers(read: seq<Template>)
    ensures Issuances(read) == (if |read| * 8 < 90 then 1 else |read| * 8 / 90)
    ensures Logins(read) == (if |read| * 2 < 90 then 1 else |read| * 2 / 90)
  {
  }

  /** The order of the blended corpus: the reads, then the issuances in turn, then the logins in turn. */
  lemma BlendOrder(read: seq<Template>, issuance: seq<Template>, login: seq<Template>, password: bool, i: nat)
    requires issuance != [] && login != []
    ensures var ts, n := Blend(read, issuance, login, password), if |read| * 8 < 90 then 1 else |read| * 8 / 90;
            && read <= ts && |read| + n <= |ts|
            && (i < n ==> ts[|read| + i] == issuance[i % |issuance|])
            && (|read| + n + i < |ts| ==> ts[|read| + n + i] == login[i % |login|])
  {
    BuiltNumbers(read);
  }

  /** Every cycle over the blended corpus carries all reads, and the built numbers of issuances and
      logins. */
  lemma BlendedCounts(read: seq<Template>, issuance: seq<Template>, login: seq<Template>, password: bool, op: Op, a: nat)
    requires issuance != [] && login != [] && AllFor(read, Read) && AllFor(issuance, Issuance) && AllFor(login, Login)
    ensures var ts := Blend(read, issuance, login, password);
            && ts != []
            && Count(Given(ts, a, |ts|), op, |ts|) == match op
                                                      case Read => |read|
                                                      case Issuance => if |read| * 8 < 90 then 1 else |read| * 8 / 90
                                                      case Login => if !password then 0 else if |read| * 2 < 90 then 1 else |read| * 2 / 90
  {
    BlendHolds(read, issuance, login, password, op);
    BuiltNumbers(read);
    CycleCarriesCorpus(Blend(read, issuance, login, password), op, a);
  }
}
