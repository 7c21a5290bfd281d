/** The form encoders of the load generators (`urlencode` in examples/http_saturation.rs and in
    examples/http_delta.rs) and the login bodies built with them, read back as a server reads
    an `application/x-www-form-urlencoded` body. */
module FormCodec {
  import opened Basics

  // ----- Encoding

  predicate Plain(b: Byte) {
    || 'A' as int <= b <= 'Z' as int || 'a' as int <= b <= 'z' as int || '0' as int <= b <= '9' as int
    || b == '-' as int || b == '_' as int || b == '.' as int || b == '~' as int
  }

  function Hex(v: int): (c: char)
    requires 0 <= v < 16
  {
    if v < 10 then ('0' as int + v) as char else ('A' as int + v - 10) as char
  }

  /** One byte.  `plus`: a space becomes `+`, as http_saturation.rs has it; http_delta.rs writes
      it like any other byte. */
  function One(b: Byte, plus: bool): (t: seq<char>)
    ensures |t| > 0
  {
    if Plain(b) then [b as char]
    else if plus && b == ' ' as int then ['+']
    else ['%', Hex(b / 16), Hex(b % 16)]
  }

  function Encode(s: seq<Byte>, plus: bool, i: nat): (t: seq<char>)
    requires i <= |s|
    decreases |s| - i
  {
    if i == |s| then [] else One(s[i], plus) + Encode(s, plus, i + 1)
  }

  method UrlEncode(s: seq<Byte>, plus: bool) returns (out: seq<char>)
    ensures out == Encode(s, plus, 0)
  {
    out := [];
    var i := 0;
    while i < |s|
      invariant 0 <= i <= |s|
      invariant out + Encode(s, plus, i) == Encode(s, plus, 0)
    {
      var b := s[i];
      Associate(out, One(b, plus), Encode(s, plus, i + 1));
      if Plain(b) {
        out := out + [b as char];
      } else if plus && b == ' ' as int {
        out := out + ['+'];
      } else {
        out := out + ['%', Hex(b / 16), Hex(b % 16)];
      }
      i := i + 1;
    }
    assert out + [] == out;
  }

  /** What stands for itself. */
  predicate Unreserved(c: char) {
    c in "ABCDEFGHIJKLMNOPQRSTUVWXYZ" || c in "abcdefghijklmnopqrstuvwxyz" || c in "0123456789" || c in "-_.~"
  }

  lemma HexDigit(v: int)
    requires 0 <= v < 16
    ensures Hex(v) == "0123456789ABCDEF"[v]
  {
  }

  /** One byte: a letter, a digit or one of `-_.~` stands for itself, a space may become `+`, and any
      other byte is written in upper-case hexadecimal behind `%`. */
  lemma OneIs(b: Byte, plus: bool)
    ensures One(b, plus) ==
            if Unreserved(b as char) then [b as char]
            else if plus && b as char == ' ' then "+"
            else ['%', "0123456789ABCDEF"[b / 16], "0123456789ABCDEF"[b % 16]]
  {
    AlphabetIn(b as char);
    HexDigit(b / 16);
    HexDigit(b % 16);
  }

  // ----- Decoding

  function Nibble(c: char): (r: Result<int>)
    ensures r.Ok? ==> 0 <= r.value < 16
  {
    if '0' <= c <= '9' then Ok(c as int - '0' as int)
    else if 'A' <= c <= 'F' then Ok(c as int - 'A' as int + 10)
    else if 'a' <= c <= 'f' then Ok(c as int - 'a' as int + 10)
    else Err
  }

  function Decode(t: seq<char>, i: nat): (r: Result<seq<Byte>>)
    requires i <= |t|
    decreases |t| - i
  {
    if i == |t| then Ok([])
    else if t[i] == '%' then
      if i + 2 >= |t| || Nibble(t[i + 1]).Err? || Nibble(t[i + 2]).Err? then Err
      else After(Nibble(t[i + 1]).value * 16 + Nibble(t[i + 2]).value, Decode(t, i + 3))
    else if t[i] == '+' then After(' ' as int, Decode(t, i + 1))
    else if t[i] as int >= 256 then Err
    else After(t[i] as int, Decode(t, i + 1))
  }

  function After(b: Byte, r: Result<seq<Byte>>): (q: Result<seq<Byte>>) {
    if r.Err? then Err else Ok([b] + r.value)
  }

  lemma DecodeOne(t: seq<char>, i: nat, b: Byte, plus: bool)
    requires i + |One(b, plus)| <= |t| && forall k | 0 <= k < |One(b, plus)| :: t[i + k] == One(b, plus)[k]
    ensures Decode(t, i) == After(b, Decode(t, i + |One(b, plus)|))
  {
    var o := One(b, plus);
    assert t[i + 0] == o[0];
    if |o| == 3 { assert t[i + 1] == o[1] && t[i + 2] == o[2]; }
  }

  lemma DecodeNext(pre: seq<char>, b: Byte, rest: seq<char>, plus: bool)
    ensures Decode(pre + (One(b, plus) + rest), |pre|) ==
            After(b, Decode((pre + One(b, plus)) + rest, |pre + One(b, plus)|))
  {
    var o := One(b, plus);
    var t := pre + (o + rest);
    Associate(pre, o, rest);
    assert forall k | 0 <= k < |o| :: t[|pre| + k] == o[k];
    DecodeOne(t, |pre|, b, plus);
  }

  lemma {:induction false} DecodeEncoded(pre: seq<char>, s: seq<Byte>, plus: bool, i: nat)
    requires i <= |s|
    ensures Decode(pre + Encode(s, plus, i), |pre|) == Ok(s[i..])
    decreases |s| - i
  {
    if i < |s| {
      DecodeEncoded(pre + One(s[i], plus), s, plus, i + 1);
      DecodeNext(pre, s[i], Encode(s, plus, i + 1), plus);
      FirstAndRest(s, i);
    } else {
      assert s[i..] == [];
    }
  }

  /** Both encoders are undone by form decoding, on every byte string. */
  lemma DecodeEncode(s: seq<Byte>, plus: bool)
    ensures Decode(Encode(s, plus, 0), 0) == Ok(s)
  {
    DecodeEncoded([], s, plus, 0);
    assert [] + Encode(s, plus, 0) == Encode(s, plus, 0);
    assert s[0..] == s;
  }

  /** Neither writes a separator. */
  lemma {:induction false} NoSeparators(s: seq<Byte>, plus: bool, i: nat)
    requires i <= |s|
    ensures '&' !in Encode(s, plus, i) && '=' !in Encode(s, plus, i)
    decreases |s| - i
  {
    if i < |s| {
      NoSeparators(s, plus, i + 1);
      assert '&' !in One(s[i], plus) && '=' !in One(s[i], plus);
    }
  }

  // ----- The fields of a body

  /** The first `c` from `i` on, or the end. */
  function Until(t: seq<char>, c: char, i: nat): (u: nat)
    requires i <= |t|
    ensures i <= u <= |t| && (forall k | i <= k < u :: t[k] != c) && (u < |t| ==> t[u] == c)
    decreases |t| - i
  {
    if i == |t| || t[i] == c then i else Until(t, c, i + 1)
  }

  lemma UntilIs(t: seq<char>, c: char, i: nat, u: nat)
    requires i <= u <= |t| && (forall k | i <= k < u :: t[k] != c) && (u < |t| ==> t[u] == c)
    ensures Until(t, c, i) == u
  {
  }

  function Pieces(t: seq<char>, c: char, i: nat): (ps: seq<seq<char>>)
    requires i <= |t|
    decreases |t| - i
  {
    var u := Until(t, c, i);
    if u == |t| then [t[i..]] else [t[i..u]] + Pieces(t, c, u + 1)
  }

  datatype Field = Field(name: seq<Byte>, value: seq<Byte>)

  /** A name and a value, split at the first `=`; without one the value is empty. */
  function ReadField(p: seq<char>): (r: Result<Field>) {
    var u := Until(p, '=', 0);
    var n := Decode(p[..u], 0);
    var v := if u < |p| then Decode(p[u + 1..], 0) else Ok([]);
    if n.Err? || v.Err? then Err else Ok(Field(n.value, v.value))
  }

  function ReadFields(ps: seq<seq<char>>, i: nat): (r: Result<seq<Field>>)
    requires i <= |ps|
    decreases |ps| - i
  {
    if i == |ps| then Ok([])
    else
      var f, rest := ReadField(ps[i]), ReadFields(ps, i + 1);
      if f.Err? || rest.Err? then Err else Ok([f.value] + rest.value)
  }

  function Form(t: seq<char>): (r: Result<seq<Field>>) {
    ReadFields(Pieces(t, '&', 0), 0)
  }

  /** `name=value` with an encoded value. */
  function Part(name: seq<char>, value: seq<Byte>, plus: bool): (p: seq<char>) {
    name + ['='] + Encode(value, plus, 0)
  }

  /** A name as the bodies use it: written as it is. */
  predicate PlainName(name: seq<char>) {
    forall i | 0 <= i < |name| :: name[i] as int < 256 && Plain(name[i] as int)
  }

  function BytesOf(name: seq<char>): (s: seq<Byte>)
    requires PlainName(name)
  {
    seq(|name|, i requires 0 <= i < |name| => name[i] as int)
  }

  lemma {:induction false} PlainEncodes(name: seq<char>, plus: bool, i: nat)
    requires PlainName(name) && i <= |name|
    ensures Encode(BytesOf(name), plus, i) == name[i..]
    decreases |name| - i
  {
    if i < |name| {
      PlainEncodes(name, plus, i + 1);
      FirstAndRest(name, i);
    }
  }

  /** A part is read back as its name and value. */
  lemma ReadPart(name: seq<char>, value: seq<Byte>, plus: bool)
    requires PlainName(name)
    ensures ReadField(Part(name, value, plus)) == Ok(Field(BytesOf(name), value))
  {
    var p := Part(name, value, plus);
    UntilIs(p, '=', 0, |name|);
    assert p[..|name|] == name && p[|name| + 1..] == Encode(value, plus, 0);
    PlainEncodes(name, plus, 0);
    assert name[0..] == name;
    DecodeEncode(BytesOf(name), plus);
    DecodeEncode(value, plus);
  }

  lemma PartNoAmpersand(name: seq<char>, value: seq<Byte>, plus: bool)
    requires PlainName(name)
    ensures '&' !in Part(name, value, plus)
  {
    NoSeparators(value, plus, 0);
  }

  lemma LastPiece(t: seq<char>, i: nat, p: seq<char>)
    requires i <= |t| && t[i..] == p && '&' !in p
    ensures Pieces(t, '&', i) == [p]
  {
    forall k | i <= k < |t| ensures t[k] != '&' {
      assert t[k] == p[k - i];
    }
    UntilIs(t, '&', i, |t|);
  }

  lemma NextPiece(t: seq<char>, i: nat, p: seq<char>)
    requires i + |p| < |t| && t[i..i + |p|] == p && t[i + |p|] == '&' && '&' !in p
    ensures Pieces(t, '&', i) == [p] + Pieces(t, '&', i + |p| + 1)
  {
    forall k | i <= k < i + |p| ensures t[k] != '&' {
      assert t[k] == p[k - i];
    }
    UntilIs(t, '&', i, i + |p|);
  }

  /** `ps[i..]` with `&` between them. */
  function Joined(ps: seq<seq<char>>, i: nat): (t: seq<char>)
    requires i < |ps|
    decreases |ps| - i
  {
    if i == |ps| - 1 then ps[i] else ps[i] + ['&'] + Joined(ps, i + 1)
  }

  lemma NextSlices(pre: seq<char>, p: seq<char>, rest: seq<char>)
    ensures var t := pre + (p + ['&'] + rest);
            t == (pre + p + ['&']) + rest && t[|pre|..|pre| + |p|] == p && t[|pre| + |p|] == '&'
  {
  }

  lemma PieceStep(pre: seq<char>, p: seq<char>, rest: seq<char>)
    requires '&' !in p
    ensures Pieces(pre + (p + ['&'] + rest), '&', |pre|) ==
            [p] + Pieces((pre + p + ['&']) + rest, '&', |pre + p + ['&']|)
  {
    NextSlices(pre, p, rest);
    NextPiece(pre + (p + ['&'] + rest), |pre|, p);
  }

  lemma PieceEnd(pre: seq<char>, p: seq<char>)
    requires '&' !in p
    ensures Pieces(pre + p, '&', |pre|) == [p]
  {
    assert (pre + p)[|pre|..] == p;
    LastPiece(pre + p, |pre|, p);
  }

  lemma LastOne<T>(s: seq<T>)
    requires s != []
    ensures s[|s| - 1..] == [s[|s| - 1]]
  {
  }

  lemma {:induction false} PiecesJoined(pre: seq<char>, ps: seq<seq<char>>, i: nat)
    requires i < |ps| && forall k | 0 <= k < |ps| :: '&' !in ps[k]
    ensures Pieces(pre + Joined(ps, i), '&', |pre|) == ps[i..]
    decreases |ps| - i
  {
    if i == |ps| - 1 {
      PieceEnd(pre, ps[i]);
      LastOne(ps);
    } else {
      PiecesJoined(pre + ps[i] + ['&'], ps, i + 1);
      PieceStep(pre, ps[i], Joined(ps, i + 1));
      FirstAndRest(ps, i);
    }
  }

  // ----- The login body

  const EMAIL := "email"
  const PASSWORD := "password"
  const CSRF := "_csrf"

  /** With a token for http_saturation.rs, when it has one; without for http_delta.rs. */
  function LoginParts(email: seq<Byte>, password: seq<Byte>, token: Option<seq<Byte>>, plus: bool): (ps: seq<seq<char>>) {
    [Part(EMAIL, email, plus), Part(PASSWORD, password, plus)]
    + if token.None? then [] else [Part(CSRF, token.value, plus)]
  }

  function LoginBody(email: seq<Byte>, password: seq<Byte>, token: Option<seq<Byte>>, plus: bool): (t: seq<char>) {
    Joined(LoginParts(email, password, token, plus), 0)
  }

  lemma NamesPlain()
    ensures PlainName(EMAIL) && PlainName(PASSWORD) && PlainName(CSRF)
  {
  }

  lemma {:induction false} ReadAll(ps: seq<seq<char>>, fs: seq<Field>, i: nat)
    requires |ps| == |fs| && i <= |ps| && forall k | 0 <= k < |ps| :: ReadField(ps[k]) == Ok(fs[k])
    ensures ReadFields(ps, i) == Ok(fs[i..])
    decreases |ps| - i
  {
    if i < |ps| {
      ReadAll(ps, fs, i + 1);
      FirstAndRest(fs, i);
    } else {
      assert fs[i..] == [];
    }
  }

  function LoginFields(email: seq<Byte>, password: seq<Byte>, token: Option<seq<Byte>>): (fs: seq<Field>) {
    NamesPlain();
    [Field(BytesOf(EMAIL), email), Field(BytesOf(PASSWORD), password)]
    + if token.None? then [] else [Field(BytesOf(CSRF), token.value)]
  }

  lemma LoginPartsRead(email: seq<Byte>, password: seq<Byte>, token: Option<seq<Byte>>, plus: bool, k: nat)
    requires k < |LoginParts(email, password, token, plus)|
    ensures var p := LoginParts(email, password, token, plus)[k];
            '&' !in p && ReadField(p) == Ok(LoginFields(email, password, token)[k])
  {
    NamesPlain();
    var name := if k == 0 then EMAIL else if k == 1 then PASSWORD else CSRF;
    var value := if k == 0 then email else if k == 1 then password else token.value;
    ReadPart(name, value, plus);
    PartNoAmpersand(name, value, plus);
  }

  /** Whatever the email, the password and the token are made of, the server gets exactly
      those fields. */
  lemma LoginBodyReadBack(email: seq<Byte>, password: seq<Byte>, token: Option<seq<Byte>>, plus: bool)
    ensures Form(LoginBody(email, password, token, plus)) == Ok(LoginFields(email, password, token))
  {
    var ps, fs := LoginParts(email, password, token, plus), LoginFields(email, password, token);
    forall k | 0 <= k < |ps| ensures '&' !in ps[k] && ReadField(ps[k]) == Ok(fs[k]) {
      LoginPartsRead(email, password, token, plus, k);
    }
    PiecesJoined([], ps, 0);
    assert [] + Joined(ps, 0) == Joined(ps, 0) && ps[0..] == ps && fs[0..] == fs;
    ReadAll(ps, fs, 0);
  }

  lemma PartsSpelled(email: seq<Byte>, password: seq<Byte>, token: Option<seq<Byte>>, plus: bool)
    ensures var ps := LoginParts(email, password, token, plus);
            && |ps| == (if token.None? then 2 else 3)
            && ps[0] == "email=" + Encode(email, plus, 0) && ps[1] == "password=" + Encode(password, plus, 0)
            && (token.Some? ==> ps[2] == "_csrf=" + Encode(token.value, plus, 0))
  {
    assert "email=" == EMAIL + ['='] && "password=" == PASSWORD + ['='] && "_csrf=" == CSRF + ['='];
  }

  lemma JoinedFew(ps: seq<seq<char>>)
    requires 2 <= |ps| <= 3
    ensures Joined(ps, 0) == ps[0] + "&" + ps[1] + if |ps| == 2 then "" else "&" + ps[2]
  {
    if |ps| == 3 { assert Joined(ps, 1) == ps[1] + ['&'] + ps[2]; }
  }

  /** The body of a login, written out. */
  lemma LoginBodyIs(email: seq<Byte>, password: seq<Byte>, token: Option<seq<Byte>>, plus: bool)
    ensures LoginBody(email, password, token, plus) ==
            "email=" + Encode(email, plus, 0) + "&" + ("password=" + Encode(password, plus, 0))
            + if token.None? then "" else "&" + ("_csrf=" + Encode(token.value, plus, 0))
  {
    PartsSpelled(email, password, token, plus);
    JoinedFew(LoginParts(email, password, token, plus));
  }

  /** The two generators' bodies say the same. */
  lemma EncodersAgree(email: seq<Byte>, password: seq<Byte>)
    ensures Form(LoginBody(email, password, None, true)) == Form(LoginBody(email, password, None, false))
  {
    LoginBodyReadBack(email, password, None, true);
    LoginBodyReadBack(email, password, None, false);
  }
}
