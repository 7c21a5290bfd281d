/** How the open-loop load generator (examples/http_saturation.rs) counts the requests of a
    rung, grades the rung, and finds the knee.  Rates and percentages are real numbers. */
module RungGrade {
  import opened Basics

  /** The known limiters and one bucket for the rest. */
  const BUCKETS := 6
  const LIMITER_UNATTRIBUTED := 5

  // ----- Counting

  /** What came of one request; the faults are told apart by the start of their text. */
  datatype Fault = ConnectFault | WriteFault | FlushFault | ReadFault
  datatype Outcome = Answered(code: nat, limiter: Option<nat>, location: Option<string>) | Failed(fault: Fault)

  datatype Stats = Stats(
    completed: nat, non2xx: nat, rateLimited: nat, shed: seq<nat>,
    connectErrors: nat, transportErrors: nat, latencies: seq<nat>)

  const NO_STATS := Stats(0, 0, 0, [0, 0, 0, 0, 0, 0], 0, 0, [])

  predicate Success(login: bool, code: nat, location: Option<string>) {
    if login then code == 200 && location == Some("/ui") else 200 <= code < 300
  }

  function Bucket(limiter: Option<nat>): (b: nat) {
    if limiter.Some? then limiter.value else LIMITER_UNATTRIBUTED
  }

  /** A worker counts one measured request. */
  function Tally(st: Stats, login: bool, out: Outcome, elapsed: nat): (r: Stats)
    requires out.Answered? ==> Bucket(out.limiter) < |st.shed|
  {
    match out
    case Failed(fault) =>
      if fault == ReadFault then st.(transportErrors := st.transportErrors + 1)
      else st.(connectErrors := st.connectErrors + 1)
    case Answered(code, limiter, location) =>
      var d := st.(completed := st.completed + 1, latencies := st.latencies + [elapsed]);
      if Success(login, code, location) then d
      else if code == 429 then
        d.(non2xx := st.non2xx + 1, rateLimited := st.rateLimited + 1,
           shed := st.shed[Bucket(limiter) := st.shed[Bucket(limiter)] + 1])
      else d.(non2xx := st.non2xx + 1)
  }

  function Sum(s: seq<nat>, n: nat): (t: nat)
    requires n <= |s|
  {
    if n == 0 then 0 else Sum(s, n - 1) + s[n - 1]
  }

  function Requests(st: Stats): (n: nat) {
    st.completed + st.connectErrors + st.transportErrors
  }

  predicate StatsOk(st: Stats) {
    && |st.shed| == BUCKETS && st.rateLimited == Sum(st.shed, |st.shed|)
    && st.rateLimited <= st.non2xx <= st.completed == |st.latencies|
  }

  lemma {:induction false} SumBump(s: seq<nat>, i: nat, n: nat)
    requires i < |s| && n <= |s|
    ensures Sum(s[i := s[i] + 1], n) == Sum(s, n) + if i < n then 1 else 0
    decreases n
  {
    if n > 0 { SumBump(s, i, n - 1); }
  }

  function Once(b: bool): (n: nat) {
    if b then 1 else 0
  }

  /** Counting keeps the books balanced, and misses neither the request nor a 429, whatever the
      operation; a fault before the answer is a connect error, one in it a transport error. */
  lemma TallyKeeps(st: Stats, login: bool, out: Outcome, elapsed: nat)
    requires StatsOk(st) && (out.Answered? ==> Bucket(out.limiter) < BUCKETS)
    ensures StatsOk(Tally(st, login, out, elapsed))
    ensures Requests(Tally(st, login, out, elapsed)) == Requests(st) + 1
    ensures var r := Tally(st, login, out, elapsed);
            && r.rateLimited == st.rateLimited + Once(out.Answered? && out.code == 429)
            && r.non2xx == st.non2xx + Once(out.Answered? && !Success(login, out.code, out.location))
            && r.transportErrors == st.transportErrors + Once(out == Failed(ReadFault))
            && r.completed == st.completed + Once(out.Answered?)
  {
    if out.Answered? { SumBump(st.shed, Bucket(out.limiter), |st.shed|); }
  }

  // ----- The books and the requests they are about

  /** A measured request: whether it was a login, what came of it, and how long it took. */
  datatype Request = Request(login: bool, out: Outcome, elapsed: nat)

  type Test = Request -> bool

  const ANSWERED: Test := (r: Request) => r.out.Answered?

  /** Answered, but not as it should be: a login with 200 and a redirect to `/ui`, anything else with a 2xx. */
  const REJECTED: Test := (r: Request) =>
    && r.out.Answered?
    && if r.login then r.out.code != 200 || r.out.location != Some("/ui") else r.out.code < 200 || r.out.code >= 300

  const LIMITED: Test := (r: Request) => r.out.Answered? && r.out.code == 429
  const UNSENT: Test := (r: Request) => r.out.Failed? && r.out.fault != ReadFault
  const BROKEN: Test := (r: Request) => r.out == Failed(ReadFault)
  const BAD: Test := (r: Request) => r.out.Failed? || REJECTED(r)

  /** Answered with a 429 by limiter `b`; 5 stands for one that is not known. */
  function Shed(b: nat): (p: Test) {
    (r: Request) => LIMITED(r) && r.out.limiter == (if b == 5 && r.out.limiter.None? then None else Some(b))
  }

  function HowMany(log: seq<Request>, p: Test, n: nat): (c: nat)
    requires n <= |log|
  {
    if n == 0 then 0 else HowMany(log, p, n - 1) + Once(p(log[n - 1]))
  }

  function Count(log: seq<Request>, p: Test): (c: nat) {
    HowMany(log, p, |log|)
  }

  /** The times of the answered requests, in order. */
  function Times(log: seq<Request>): (ts: seq<nat>) {
    if log == [] then []
    else
      var last := log[|log| - 1];
      Times(log[..|log| - 1]) + if last.out.Answered? then [last.elapsed] else []
  }

  /** The books say what the requests were, column by column. */
  predicate Tallied(st: Stats, log: seq<Request>) {
    && st.completed == Count(log, ANSWERED) && st.non2xx == Count(log, REJECTED) && st.rateLimited == Count(log, LIMITED)
    && st.connectErrors == Count(log, UNSENT) && st.transportErrors == Count(log, BROKEN)
    && Histogram(st.shed, log) && st.latencies == Times(log)
  }

  predicate Histogram(shed: seq<nat>, log: seq<Request>) {
    |shed| == 6 && forall b | 0 <= b < 6 :: shed[b] == Count(log, Shed(b))
  }

  lemma {:induction false} HowManySame(a: seq<Request>, b: seq<Request>, p: Test, n: nat)
    requires n <= |a|
    ensures HowMany(a + b, p, n) == HowMany(a, p, n)
  {
    if n > 0 { HowManySame(a, b, p, n - 1); }
  }

  lemma CountMore(log: seq<Request>, r: Request, p: Test)
    ensures Count(log + [r], p) == Count(log, p) + Once(p(r))
  {
    HowManySame(log, [r], p, |log|);
  }

  lemma {:induction false} HowManyAppend(a: seq<Request>, b: seq<Request>, p: Test, n: nat)
    requires n <= |b|
    ensures HowMany(a + b, p, |a| + n) == Count(a, p) + HowMany(b, p, n)
    decreases n
  {
    if n > 0 { HowManyAppend(a, b, p, n - 1); } else { HowManySame(a, b, p, |a|); }
  }

  lemma CountAppend(a: seq<Request>, b: seq<Request>, p: Test)
    ensures Count(a + b, p) == Count(a, p) + Count(b, p)
  {
    HowManyAppend(a, b, p, |b|);
  }

  lemma {:induction false} TimesAppend(a: seq<Request>, b: seq<Request>)
    ensures Times(a + b) == Times(a) + Times(b)
    decreases |b|
  {
    if b == [] {
      assert a + b == a;
    } else {
      TimesAppend(a, b[..|b| - 1]);
      assert (a + b)[..|a + b| - 1] == a + b[..|b| - 1];
    }
  }

  lemma TimesMore(log: seq<Request>, r: Request)
    ensures Times(log + [r]) == Times(log) + if r.out.Answered? then [r.elapsed] else []
  {
    assert (log + [r])[..|log|] == log;
  }

  lemma ShedMore(st: Stats, log: seq<Request>, r: Request)
    requires Histogram(st.shed, log) && (r.out.Answered? ==> Bucket(r.out.limiter) < BUCKETS)
    ensures Histogram(Tally(st, r.login, r.out, r.elapsed).shed, log + [r])
  {
    var t := Tally(st, r.login, r.out, r.elapsed);
    forall b | 0 <= b < 6 ensures t.shed[b] == Count(log + [r], Shed(b)) {
      CountMore(log, r, Shed(b));
      assert Shed(b)(r) <==> LIMITED(r) && Bucket(r.out.limiter) == b;
    }
  }

  /** Counting a request adds it to the books, in every column. */
  lemma TallyCounts(st: Stats, log: seq<Request>, r: Request)
    requires Tallied(st, log) && (r.out.Answered? ==> Bucket(r.out.limiter) < BUCKETS)
    ensures Tallied(Tally(st, r.login, r.out, r.elapsed), log + [r])
  {
    CountMore(log, r, ANSWERED);
    CountMore(log, r, REJECTED);
    CountMore(log, r, LIMITED);
    CountMore(log, r, UNSENT);
    CountMore(log, r, BROKEN);
    ShedMore(st, log, r);
    TimesMore(log, r);
  }

  /** Every request is answered, or failed before or in the answer; those that are bad are the failed
      and the rejected ones. */
  lemma {:induction false} CountsAddUp(log: seq<Request>, n: nat)
    requires n <= |log|
    ensures HowMany(log, ANSWERED, n) + HowMany(log, UNSENT, n) + HowMany(log, BROKEN, n) == n
    ensures HowMany(log, BAD, n) == HowMany(log, REJECTED, n) + HowMany(log, UNSENT, n) + HowMany(log, BROKEN, n)
  {
    if n > 0 { CountsAddUp(log, n - 1); }
  }

  // ----- The rung

  function AddEach(a: seq<nat>, b: seq<nat>): (c: seq<nat>)
    requires |a| == |b|
    ensures |c| == |a| && forall i | 0 <= i < |a| :: c[i] == a[i] + b[i]
  {
    seq(|a|, i requires 0 <= i < |a| => a[i] + b[i])
  }

  function Plus(a: Stats, b: Stats): (c: Stats)
    requires |a.shed| == |b.shed|
  {
    Stats(a.completed + b.completed, a.non2xx + b.non2xx, a.rateLimited + b.rateLimited, AddEach(a.shed, b.shed),
          a.connectErrors + b.connectErrors, a.transportErrors + b.transportErrors, a.latencies + b.latencies)
  }

  /** The first `n` workers together. */
  function Total(ss: seq<Stats>, n: nat): (t: Stats)
    requires n <= |ss| && forall i | 0 <= i < n :: |ss[i].shed| == BUCKETS
    ensures |t.shed| == BUCKETS
  {
    if n == 0 then NO_STATS else Plus(Total(ss, n - 1), ss[n - 1])
  }

  method Aggregate(ss: seq<Stats>) returns (t: Stats)
    requires forall i | 0 <= i < |ss| :: |ss[i].shed| == BUCKETS
    ensures t == Total(ss, |ss|)
  {
    t := NO_STATS;
    for n := 0 to |ss|
      invariant t == Total(ss, n)
    {
      var s, sums := ss[n], t.shed;
      for i := 0 to |sums|
        invariant |sums| == BUCKETS
        invariant forall j | 0 <= j < |sums| :: sums[j] == if j < i then t.shed[j] + s.shed[j] else t.shed[j]
      {
        sums := sums[i := sums[i] + s.shed[i]];
      }
      assert sums == AddEach(t.shed, s.shed);
      t := Stats(t.completed + s.completed, t.non2xx + s.non2xx, t.rateLimited + s.rateLimited, sums,
                 t.connectErrors + s.connectErrors, t.transportErrors + s.transportErrors, t.latencies + s.latencies);
    }
  }

  lemma {:induction false} SumEach(a: seq<nat>, b: seq<nat>, n: nat)
    requires |a| == |b| && n <= |a|
    ensures Sum(AddEach(a, b), n) == Sum(a, n) + Sum(b, n)
    decreases n
  {
    if n > 0 { SumEach(a, b, n - 1); }
  }

  lemma PlusOk(a: Stats, b: Stats)
    requires StatsOk(a) && StatsOk(b)
    ensures StatsOk(Plus(a, b)) && Requests(Plus(a, b)) == Requests(a) + Requests(b)
  {
    SumEach(a.shed, b.shed, |a.shed|);
  }

  lemma NoStatsOk()
    ensures StatsOk(NO_STATS) && Requests(NO_STATS) == 0
  {
    var z: seq<nat> := [0, 0, 0, 0, 0, 0];
    assert Sum(z, 2) == 0 && Sum(z, 4) == 0;
  }

  predicate AllOk(ss: seq<Stats>) {
    forall i | 0 <= i < |ss| :: |ss[i].shed| == BUCKETS && StatsOk(ss[i])
  }

  /** The sums are the books of all requests together. */
  lemma PlusTallied(a: Stats, la: seq<Request>, b: Stats, lb: seq<Request>)
    requires Tallied(a, la) && Tallied(b, lb)
    ensures Tallied(Plus(a, b), la + lb)
  {
    CountAppend(la, lb, ANSWERED);
    CountAppend(la, lb, REJECTED);
    CountAppend(la, lb, LIMITED);
    CountAppend(la, lb, UNSENT);
    CountAppend(la, lb, BROKEN);
    forall i | 0 <= i < 6 ensures Plus(a, b).shed[i] == Count(la + lb, Shed(i)) { CountAppend(la, lb, Shed(i)); }
    TimesAppend(la, lb);
  }

  lemma NoneTallied()
    ensures Tallied(NO_STATS, [])
  {
  }

  function AllRequests(ss: seq<Stats>, n: nat): (t: nat)
    requires n <= |ss|
  {
    if n == 0 then 0 else AllRequests(ss, n - 1) + Requests(ss[n - 1])
  }

  /** The totals balance like the books of every worker. */
  lemma {:induction false} TotalOk(ss: seq<Stats>, n: nat)
    requires n <= |ss| && AllOk(ss)
    ensures StatsOk(Total(ss, n)) && Requests(Total(ss, n)) == AllRequests(ss, n)
  {
    if n == 0 {
      NoStatsOk();
    } else {
      TotalOk(ss, n - 1);
      PlusOk(Total(ss, n - 1), ss[n - 1]);
    }
  }

  function Ratio(a: nat, b: nat): (r: real)
    requires b > 0
  {
    a as real / b as real
  }

  lemma RatioBounds(a: nat, b: nat)
    requires a <= b && b > 0
    ensures 0.0 <= Ratio(a, b) <= 1.0
  {
    if a > 0 { assert a as real / b as real > 0.0; }
  }

  function ErrorRate(t: Stats): (r: real) {
    Ratio(t.non2xx + t.connectErrors + t.transportErrors, if Requests(t) == 0 then 1 else Requests(t))
  }

  /** The error rate of a rung is a proportion. */
  lemma ErrorRateBounds(t: Stats)
    requires StatsOk(t)
    ensures 0.0 <= ErrorRate(t) <= 1.0
  {
    RatioBounds(t.non2xx + t.connectErrors + t.transportErrors, if Requests(t) == 0 then 1 else Requests(t));
  }

  /** It is the share of bad requests. */
  lemma ErrorRateIs(t: Stats, log: seq<Request>)
    requires Tallied(t, log)
    ensures ErrorRate(t) == Count(log, BAD) as real / (if log == [] then 1.0 else |log| as real)
  {
    CountsAddUp(log, |log|);
  }

  // ----- The grade

  const SERVER_PINNED_PCT := 90.0
  const MIN_GENERATOR_HEADROOM := 2.0
  const MAX_ERROR_RATE := 0.005
  const KEEPUP_FRACTION := 0.95

  datatype Grade = ADMISSIBLE | INCOMPLETE | INADMISSIBLE

  datatype Condition = RateLimited | SoftnetDrops | EphemeralPorts | Headroom | TransportClean | Queueing | ServerPinned

  /** `ports` is `None` when the port range cannot be read. */
  datatype Net = Net(dropped: nat, timeWait: nat, ports: Option<nat>)

  predicate PortsOk(net: Net) {
    net.ports.None? || net.timeWait < net.ports.value * 95 / 100
  }

  datatype Sample = Sample(cpu: Option<real>, headroom: real, faults: nat, errorRate: real, rateLimited: nat, net: Net)

  /** Which conditions a sample fails; a missing CPU sample fails none. */
  predicate Fails(s: Sample, c: Condition) {
    match c
    case RateLimited => s.rateLimited > 0
    case SoftnetDrops => s.net.dropped > 0
    case EphemeralPorts => !PortsOk(s.net)
    case Headroom => s.headroom < MIN_GENERATOR_HEADROOM
    case TransportClean => s.faults > 0
    case Queueing => s.errorRate > MAX_ERROR_RATE
    case ServerPinned => s.cpu.Some? && s.cpu.value < SERVER_PINNED_PCT
  }

  /** Failures that do not need a CPU sample to count. */
  predicate Hard(s: Sample) {
    Fails(s, RateLimited) || Fails(s, SoftnetDrops) || Fails(s, EphemeralPorts)
  }

  method Classify(s: Sample) returns (grade: Grade, failing: seq<Condition>)
    ensures forall c :: c in failing <==> Fails(s, c)
    ensures grade == ADMISSIBLE <==> s.cpu.Some? && forall c :: !Fails(s, c)
    ensures grade == INCOMPLETE <==> s.cpu.None? && !Hard(s)
  {
    failing := [];
    if s.rateLimited > 0 { failing := failing + [RateLimited]; }
    if s.net.dropped != 0 { failing := failing + [SoftnetDrops]; }
    if !PortsOk(s.net) { failing := failing + [EphemeralPorts]; }
    if !(s.headroom >= MIN_GENERATOR_HEADROOM) { failing := failing + [Headroom]; }
    if s.faults != 0 { failing := failing + [TransportClean]; }
    if !(s.errorRate <= MAX_ERROR_RATE) { failing := failing + [Queueing]; }
    if s.cpu.Some? && !(s.cpu.value >= SERVER_PINNED_PCT) { failing := failing + [ServerPinned]; }
    assert forall c :: c in failing <==> Fails(s, c);
    if s.rateLimited > 0 {
      assert Fails(s, RateLimited);
      grade := INADMISSIBLE;
    } else if s.net.dropped != 0 || !PortsOk(s.net) {
      assert Fails(s, SoftnetDrops) || Fails(s, EphemeralPorts);
      grade := INADMISSIBLE;
    } else if s.cpu.None? {
      grade := INCOMPLETE;
    } else if failing == [] {
      grade := ADMISSIBLE;
    } else {
      assert failing[0] in failing;
      grade := INADMISSIBLE;
    }
  }

  // ----- The knee

  datatype Rung = Rung(offered: nat, achieved: real, rateLimited: nat, grade: Grade)

  predicate Qualifies(r: Rung) {
    r.grade == ADMISSIBLE && r.achieved >= r.offered as real * KEEPUP_FRACTION
  }

  /** The highest rung that is admissible and kept up. */
  method DetectKnee(rungs: seq<Rung>) returns (knee: Option<nat>)
    ensures knee.None? <==> forall i | 0 <= i < |rungs| :: !Qualifies(rungs[i])
    ensures knee.Some? ==> knee.value < |rungs| && Qualifies(rungs[knee.value])
                           && forall i | knee.value < i < |rungs| :: !Qualifies(rungs[i])
    ensures forall i | 0 <= i < |rungs| && rungs[i].grade == ADMISSIBLE && rungs[i].achieved >= rungs[i].offered as real * 0.95 ::
              knee.Some? && i <= knee.value
  {
    knee := None;
    for i := 0 to |rungs|
      invariant knee.None? ==> forall j | 0 <= j < i :: !Qualifies(rungs[j])
      invariant knee.Some? ==> knee.value < i && Qualifies(rungs[knee.value])
                               && forall j | knee.value < j < i :: !Qualifies(rungs[j])
    {
      if Qualifies(rungs[i]) { knee := Some(i); }
    }
  }

  /** The end of `run_rung`: a rung that counted any 429 is not admissible. */
  method GradeRung(offered: nat, achieved: real, ss: seq<Stats>, cpu: Option<real>, headroom: real, net: Net)
    returns (r: Rung)
    requires AllOk(ss)
    ensures r.offered == offered && r.achieved == achieved && r.rateLimited == Total(ss, |ss|).rateLimited
    ensures r.rateLimited > 0 ==> r.grade == INADMISSIBLE
    ensures r.grade == ADMISSIBLE <==>
            && cpu.Some? && cpu.value >= 90.0 && headroom >= 2.0
            && Total(ss, |ss|).connectErrors == Total(ss, |ss|).transportErrors == 0 == r.rateLimited
            && ErrorRate(Total(ss, |ss|)) <= 0.005
            && net.dropped == 0 && (net.ports.None? || net.timeWait < net.ports.value * 95 / 100)
    ensures r.grade == INCOMPLETE <==>
            && cpu.None? && r.rateLimited == 0 && net.dropped == 0
            && (net.ports.None? || net.timeWait < net.ports.value * 95 / 100)
  {
    var t := Aggregate(ss);
    var s := Sample(cpu, headroom, t.connectErrors + t.transportErrors, ErrorRate(t), t.rateLimited, net);
    var grade, failing := Classify(s);
    r := Rung(offered, achieved, t.rateLimited, grade);
    assert grade == ADMISSIBLE ==>
      && !Fails(s, RateLimited) && !Fails(s, SoftnetDrops) && !Fails(s, EphemeralPorts)
      && !Fails(s, Headroom) && !Fails(s, TransportClean) && !Fails(s, Queueing) && !Fails(s, ServerPinned);
  }
}
