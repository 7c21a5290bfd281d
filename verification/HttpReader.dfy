/** The two HTTP/1.1 response readers of the load generators, for one Content-Length response
    in flight (section 6.3 of RFC 9112): `read_response` in examples/http_saturation.rs, with a
    growing buffer, and `HttpConn::round_trip` in examples/http_delta.rs, with a fixed one.

    `wire` is what the server sends before it closes or falls silent.  A read returns some of
    what is left, at least one byte if there is one and there is room; how many is up to
    `sizes`.  What the head says is a function of its bytes, and so is the bucket of a
    429 body (`Limiter.Bucket`); the results hold for every such function. */
module HttpReader {
  import opened Basics
  import opened Limiter

  datatype Outcome<T> = Got(value: T) | Failed(error: Error)

  datatype Error = EofBeforeHeaders | BadHead | EofMidBody

  const END: seq<char> := "\r\n\r\n"

  /** The bytes of the head, with its empty line. */
  function HeaderEnd(d: seq<char>): (r: Option<nat>)
    ensures r.Some? ==> r.value <= |d|
  {
    var p := FindSubslice(d, END);
    if p.None? then None else Some(p.value + |END|)
  }

  /** More bytes behind it do not move the end of the head. */
  lemma EndStays(d: seq<char>, wire: seq<char>)
    requires d <= wire && HeaderEnd(d).Some?
    ensures HeaderEnd(wire) == HeaderEnd(d)
  {
    var p := FindSubslice(d, END).value;
    assert StandsAt(wire, END, p);
    forall j | 0 <= j < p ensures !StandsAt(wire, END, j) {
      assert StandsAt(wire, END, j) ==> StandsAt(d, END, j);
    }
    FoundIs(wire, END, p);
  }

  datatype Head = Head(status: nat, location: Option<seq<char>>, length: nat)

  datatype Response = Response(status: nat, bucket: Option<nat>, location: Option<seq<char>>)

  type Parser = seq<char> -> Outcome<Head>
  type Classifier = seq<char> -> nat
  type Sizes = nat -> nat

  ghost predicate Splitting(sizes: Sizes) {
    forall k: nat :: sizes(k) > 0
  }

  /** The number of bytes a read returns. */
  function Read(size: nat, room: nat, left: nat): (n: nat)
    ensures n <= room && n <= left && (size > 0 && room > 0 && left > 0 ==> n > 0)
  {
    if size <= room && size <= left then size else if room <= left then room else left
  }

  // ----- The growing buffer

  /** The response, read from the whole of `wire` at once. */
  function Parsed(wire: seq<char>, parse: Parser, bucket: Classifier): (r: Outcome<Response>) {
    var he := HeaderEnd(wire);
    if he.None? then Failed(EofBeforeHeaders)
    else
      var h := parse(wire[..he.value]);
      if h.Failed? then Failed(BadHead)
      else if |wire| < he.value + h.value.length then Failed(EofMidBody)
      else
        var body := wire[he.value..he.value + h.value.length];
        Got(Response(h.value.status, if h.value.status == 429 then Some(bucket(body)) else None, h.value.location))
  }

  /** The head is the first `n` bytes: it ends with the first empty line. */
  predicate IsHead(wire: seq<char>, n: nat) {
    4 <= n <= |wire| && StandsAt(wire, "\r\n\r\n", n - 4) && forall j | 0 <= j < n - 4 :: !StandsAt(wire, "\r\n\r\n", j)
  }

  lemma HeaderEndIff(wire: seq<char>, n: nat)
    ensures HeaderEnd(wire) == Some(n) <==> IsHead(wire, n)
    ensures HeaderEnd(wire).None? <==> forall j :: !StandsAt(wire, "\r\n\r\n", j)
  {
    if IsHead(wire, n) { FoundIs(wire, END, n - 4); }
  }

  /** A response that arrives whole: its status, its redirect target, and, if it was shed, the bucket of
      its body. */
  lemma WholeResponse(head: seq<char>, body: seq<char>, more: seq<char>, parse: Parser, bucket: Classifier,
                      status: nat, location: Option<seq<char>>)
    requires IsHead(head + body + more, |head|) && parse(head) == Got(Head(status, location, |body|))
    ensures Parsed(head + body + more, parse, bucket) ==
            Got(Response(status, if status == 429 then Some(bucket(body)) else None, location))
  {
    var wire := head + body + more;
    HeaderEndIff(wire, |head|);
    assert wire[..|head|] == head && wire[|head|..|head| + |body|] == body;
  }

  /** The errors: no empty line has come; the head cannot be read; less has come than it announces. */
  lemma CutResponse(wire: seq<char>, parse: Parser, bucket: Classifier)
    ensures Parsed(wire, parse, bucket) == Failed(EofBeforeHeaders) <==> forall j :: !StandsAt(wire, "\r\n\r\n", j)
    ensures Parsed(wire, parse, bucket) == Failed(BadHead) <==> exists n: nat :: IsHead(wire, n) && parse(wire[..n]).Failed?
    ensures Parsed(wire, parse, bucket) == Failed(EofMidBody) <==>
            exists n: nat :: IsHead(wire, n) && parse(wire[..n]).Got? && |wire| < n + parse(wire[..n]).value.length
  {
    forall n: nat ensures HeaderEnd(wire) == Some(n) <==> IsHead(wire, n) { HeaderEndIff(wire, n); }
    HeaderEndIff(wire, 0);
  }

  /** A whole 429 whose body names a known limiter is counted for that limiter. */
  lemma ShedResponse(head: seq<char>, pre: seq<char>, k: nat, sep: char, rest: seq<char>, parse: Parser, location: Option<seq<char>>)
    requires k < 5 && Separator(sep) && FirstTag(pre)
    requires var body := pre + "\"limiter\":\"" + ["shaper", "admin", "token", "export", "login_ip"][k] + "\"" + [sep] + rest;
             IsHead(head + body, |head|) && parse(head) == Got(Head(429, location, |body|))
    ensures var body := pre + "\"limiter\":\"" + ["shaper", "admin", "token", "export", "login_ip"][k] + "\"" + [sep] + rest;
            Parsed(head + body, parse, Bucket) == Got(Response(429, Some(k), location))
  {
    var body := pre + "\"limiter\":\"" + ["shaper", "admin", "token", "export", "login_ip"][k] + "\"" + [sep] + rest;
    NamedAttributed(pre, k, sep, rest);
    assert head + body + [] == head + body;
    WholeResponse(head, body, [], parse, Bucket, 429, location);
  }

  /** Nothing is sent behind the response. */
  predicate OneInFlight(wire: seq<char>, parse: Parser) {
    var he := HeaderEnd(wire);
    he.Some? && parse(wire[..he.value]).Got? ==> |wire| <= he.value + parse(wire[..he.value]).value.length
  }

  const READ_SIZE := 4096

  method ReadHead(wire: seq<char>, sizes: Sizes) returns (buf: seq<char>, count: nat, end: Option<nat>)
    requires Splitting(sizes)
    ensures buf <= wire && end == HeaderEnd(buf) && (end.None? ==> buf == wire)
  {
    buf, count, end := [], 0, HeaderEnd([]);
    while end.None?
      invariant buf <= wire && end == HeaderEnd(buf)
      decreases |wire| - |buf|
    {
      var n := Read(sizes(count), READ_SIZE, |wire| - |buf|);
      if n == 0 { return; }
      buf := buf + wire[|buf|..|buf| + n];
      count := count + 1;
      end := HeaderEnd(buf);
    }
  }

  /** The body is counted, and kept when the status is 429. */
  method ReadBody(wire: seq<char>, from: nat, start: nat, want: nat, keep: bool, sizes: Sizes, done: nat)
    returns (r: Outcome<seq<char>>)
    requires Splitting(sizes) && from <= start <= |wire| && |wire| <= from + want
    ensures r == if |wire| < from + want then Failed(EofMidBody) else Got(if keep then wire[from..from + want] else [])
  {
    var pos, count := start, done;
    var body := if keep then wire[from..start] else [];
    while pos - from < want
      invariant start <= pos <= |wire|
      invariant body == if keep then wire[from..pos] else []
      decreases |wire| - pos
    {
      var n := Read(sizes(count), READ_SIZE, |wire| - pos);
      if n == 0 { return Failed(EofMidBody); }
      if keep { body := body + wire[pos..pos + n]; }
      pos := pos + n;
      count := count + 1;
    }
    return Got(body);
  }

  /** However the bytes are split into reads, the status, the limiter bucket and the redirect
      target are those of the whole response, and so is the error when it is cut short. */
  method ReadResponse(wire: seq<char>, sizes: Sizes, parse: Parser, bucket: Classifier) returns (r: Outcome<Response>)
    requires Splitting(sizes) && OneInFlight(wire, parse)
    ensures r == Parsed(wire, parse, bucket)
  {
    var buf, count, end := ReadHead(wire, sizes);
    if end.None? { return Failed(EofBeforeHeaders); }
    EndStays(buf, wire);
    var he := end.value;
    assert buf[..he] == wire[..he];
    var h := parse(buf[..he]);
    if h.Failed? { return Failed(BadHead); }
    var keep := h.value.status == 429;
    var body := ReadBody(wire, he, |buf|, h.value.length, keep, sizes, count);
    if body.Failed? { return Failed(EofMidBody); }
    return Got(Response(h.value.status, if keep then Some(bucket(body.value)) else None, h.value.location));
  }

  // ----- The fixed buffer

  const BUFFER := 65536

  /** What fits into the buffer. */
  function Visible(wire: seq<char>): (d: seq<char>)
    ensures d <= wire
  {
    if |wire| <= BUFFER then wire else wire[..BUFFER]
  }

  /** The status, read from what fits into the buffer. */
  function Fitted(wire: seq<char>, parse: Parser): (r: Outcome<nat>) {
    var he := HeaderEnd(Visible(wire));
    if he.None? then Failed(EofBeforeHeaders)
    else
      var h := parse(Visible(wire)[..he.value]);
      if h.Failed? then Failed(BadHead)
      else if |Visible(wire)| < he.value + h.value.length then Failed(EofMidBody)
      else Got(h.value.status)
  }

  /** One read into the free part of the buffer; 0 when it is full or nothing is left. */
  method Receive(buf: array<char>, filled: nat, wire: seq<char>, size: nat) returns (n: nat)
    requires filled <= |wire| && filled <= buf.Length && buf[..filled] == wire[..filled]
    modifies buf
    ensures filled + n <= |wire| && filled + n <= buf.Length && buf[..filled + n] == wire[..filled + n]
    ensures size > 0 && n == 0 ==> filled == |wire| || filled == buf.Length
  {
    n := Read(size, buf.Length - filled, |wire| - filled);
    forall i | 0 <= i < n {
      buf[filled + i] := wire[filled + i];
    }
    assert forall i | 0 <= i < filled + n :: buf[i] == wire[i];
  }

  method FillHead(buf: array<char>, wire: seq<char>, sizes: Sizes) returns (filled: nat, count: nat, end: Option<nat>)
    requires buf.Length == BUFFER && Splitting(sizes)
    modifies buf
    ensures filled <= |wire| && filled <= BUFFER && buf[..filled] == wire[..filled] && end == HeaderEnd(wire[..filled])
    ensures end.None? ==> wire[..filled] == Visible(wire)
  {
    filled, count, end := 0, 0, None;
    while end.None?
      invariant filled <= |wire| && filled <= BUFFER && buf[..filled] == wire[..filled]
      invariant end == HeaderEnd(wire[..filled])
      decreases |wire| - filled
    {
      var n := Receive(buf, filled, wire, sizes(count));
      if n == 0 { return; }
      filled := filled + n;
      count := count + 1;
      end := HeaderEnd(buf[..filled]);
    }
  }

  /** However the bytes are split into reads, the status is that of the response, or an error
      when it is cut short or larger than the buffer. */
  method RoundTrip(buf: array<char>, wire: seq<char>, sizes: Sizes, parse: Parser) returns (r: Outcome<nat>)
    requires buf.Length == BUFFER && Splitting(sizes)
    modifies buf
    ensures r == Fitted(wire, parse)
  {
    var filled, count, end := FillHead(buf, wire, sizes);
    if end.None? { return Failed(EofBeforeHeaders); }
    EndStays(wire[..filled], Visible(wire));
    var he := end.value;
    assert buf[..he] == wire[..filled][..he] == Visible(wire)[..he];
    var h := parse(buf[..he]);
    if h.Failed? { return Failed(BadHead); }
    var want := he + h.value.length;
    while filled < want
      invariant he <= filled <= |wire| && filled <= BUFFER && buf[..filled] == wire[..filled]
      decreases |wire| - filled
    {
      var n := Receive(buf, filled, wire, sizes(count));
      if n == 0 { return Failed(EofMidBody); }
      filled := filled + n;
      count := count + 1;
    }
    return Got(h.value.status);
  }

  /** The fixed-buffer reader never reports a status other than the response's own. */
  lemma FittedIsParsed(wire: seq<char>, parse: Parser, bucket: Classifier)
    requires Fitted(wire, parse).Got?
    ensures Parsed(wire, parse, bucket).Got? && Parsed(wire, parse, bucket).value.status == Fitted(wire, parse).value
  {
    EndStays(Visible(wire), wire);
    var he := HeaderEnd(Visible(wire)).value;
    assert Visible(wire)[..he] == wire[..he];
  }

  /** Of a response that arrives whole it reports the status exactly when head and body fit. */
  lemma FittedIff(wire: seq<char>, parse: Parser, bucket: Classifier)
    requires Parsed(wire, parse, bucket).Got?
    ensures var he := HeaderEnd(wire).value;
            Fitted(wire, parse).Got? <==> he + parse(wire[..he]).value.length <= 65536
  {
    var he := HeaderEnd(wire).value;
    if HeaderEnd(Visible(wire)).Some? {
      EndStays(Visible(wire), wire);
      assert Visible(wire)[..he] == wire[..he];
    }
    if he <= BUFFER { EndVisible(wire); }
  }

  /** Its errors, of what fits into the buffer. */
  lemma FittedErrors(wire: seq<char>, parse: Parser)
    ensures var d := if |wire| <= 65536 then wire else wire[..65536];
            && (Fitted(wire, parse) == Failed(EofBeforeHeaders) <==> forall j :: !StandsAt(d, "\r\n\r\n", j))
            && (Fitted(wire, parse) == Failed(BadHead) <==> exists n: nat :: IsHead(d, n) && parse(d[..n]).Failed?)
  {
    var d := Visible(wire);
    forall n: nat ensures HeaderEnd(d) == Some(n) <==> IsHead(d, n) { HeaderEndIff(d, n); }
    HeaderEndIff(d, 0);
  }

  lemma EndVisible(wire: seq<char>)
    requires HeaderEnd(wire).Some? && HeaderEnd(wire).value <= BUFFER
    ensures HeaderEnd(Visible(wire)).Some?
  {
    var p := FindSubslice(wire, END).value;
    assert StandsAt(Visible(wire), END, p);
  }
}
