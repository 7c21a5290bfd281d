/** The rate ladder of the load generator: every rung is a run of the backlog and its workers, the
    books of the workers are added up and graded, and the knee is looked for among the grades
    (`run_rung`, `detect_knee` and `main` in examples/http_saturation.rs). */
module Ladder {
  import opened Basics
  import opened RungGrade
  import opened Backlog

  /** A run that has come to its end: all workers, in the order of their numbers, are gone. */
  ghost predicate Ended(trace: seq<State>, acts: seq<Action>, cap: nat, ids: seq<Tid>) {
    && IsRun(trace, acts, cap, set w | w in ids) && ids != []
    && forall w | w in ids :: Is(trace[|acts|], w, Gone)
  }

  /** The books of the workers, in order. */
  function Books(s: State, ids: seq<Tid>): (ss: seq<Stats>)
    requires forall w | w in ids :: w in s.desks
    ensures |ss| == |ids| && forall i | 0 <= i < |ids| :: ss[i] == s.desks[ids[i]].stats
  {
    seq(|ids|, i requires 0 <= i < |ids| => s.desks[ids[i]].stats)
  }

  /** The measured requests of the first `n` workers. */
  function AllSent(acts: seq<Action>, ids: seq<Tid>, n: nat): (log: seq<Request>)
    requires n <= |ids|
  {
    if n == 0 then [] else AllSent(acts, ids, n - 1) + Sent(acts, ids[n - 1], |acts|)
  }

  /** The books of all workers are those of their measured requests. */
  ghost predicate Counted(s: State, acts: seq<Action>, ids: seq<Tid>) {
    forall w | w in ids :: Accounted(s, acts, w, |acts|)
  }

  lemma EndedCounted(trace: seq<State>, acts: seq<Action>, cap: nat, ids: seq<Tid>)
    requires Ended(trace, acts, cap, ids)
    ensures Counted(trace[|acts|], acts, ids)
  {
    var all := set w | w in ids;
    assert ids[0] in all;
    AllDrained(trace, acts, cap, all, |acts|);
  }

  lemma BooksAllOk(s: State, acts: seq<Action>, ids: seq<Tid>)
    requires Counted(s, acts, ids)
    ensures AllOk(Books(s, ids))
  {
    forall i | 0 <= i < |ids| ensures StatsOk(Books(s, ids)[i]) { assert Accounted(s, acts, ids[i], |acts|); }
  }

  /** The total of a rung says, column by column, what came of the measured requests of its
      workers. */
  lemma {:induction false} TotalTallied(s: State, acts: seq<Action>, ids: seq<Tid>, n: nat)
    requires Counted(s, acts, ids) && n <= |ids|
    ensures AllOk(Books(s, ids)) && Tallied(Total(Books(s, ids), n), AllSent(acts, ids, n))
  {
    BooksAllOk(s, acts, ids);
    if n == 0 {
      NoneTallied();
    } else {
      TotalTallied(s, acts, ids, n - 1);
      assert ids[n - 1] in ids;
      PlusTallied(Total(Books(s, ids), n - 1), AllSent(acts, ids, n - 1), Books(s, ids)[n - 1], Sent(acts, ids[n - 1], |acts|));
    }
  }

  /** A rung: the steps of its run, the state they ended in, and the measurements that come from
      outside. */
  datatype Reading = Reading(acts: seq<Action>, final: State, ids: seq<Tid>,
                             offered: nat, achieved: real, cpu: Option<real>, headroom: real, net: Net)

  ghost predicate FromRun(x: Reading) {
    exists trace: seq<State>, cap: nat :: Ended(trace, x.acts, cap, x.ids) && trace[|x.acts|] == x.final
  }

  lemma FromRunCounted(x: Reading)
    requires FromRun(x)
    ensures Counted(x.final, x.acts, x.ids)
  {
    var trace: seq<State>, cap: nat :| Ended(trace, x.acts, cap, x.ids) && trace[|x.acts|] == x.final;
    EndedCounted(trace, x.acts, cap, x.ids);
  }

  function Log(x: Reading): (log: seq<Request>) {
    AllSent(x.acts, x.ids, |x.ids|)
  }

  /** The rung measured the server: it was busy and the generator was not, no packet was dropped and
      ports were left; no request failed or was shed, and at most one in 200 was rejected. */
  predicate Sound(x: Reading) {
    && x.cpu.Some? && x.cpu.value >= 90.0 && x.headroom >= 2.0
    && x.net.dropped == 0 && (x.net.ports.None? || x.net.timeWait < x.net.ports.value * 95 / 100)
    && (forall r | r in Log(x) :: r.out.Answered? && r.out.code != 429)
    && 200 * Count(Log(x), REJECTED) <= |Log(x)|
  }

  lemma {:induction false} NoneOf(log: seq<Request>, p: Test, n: nat)
    requires n <= |log|
    ensures HowMany(log, p, n) == 0 <==> forall i | 0 <= i < n :: !p(log[i])
  {
    if n > 0 { NoneOf(log, p, n - 1); }
  }

  lemma AllAnswered(log: seq<Request>)
    ensures Count(log, UNSENT) == Count(log, BROKEN) == 0 == Count(log, LIMITED) <==>
            forall r | r in log :: r.out.Answered? && r.out.code != 429
  {
    NoneOf(log, UNSENT, |log|);
    NoneOf(log, BROKEN, |log|);
    NoneOf(log, LIMITED, |log|);
    if Count(log, UNSENT) == Count(log, BROKEN) == 0 == Count(log, LIMITED) {
      forall r | r in log ensures r.out.Answered? && r.out.code != 429 {
        var i :| 0 <= i < |log| && log[i] == r;
        assert !UNSENT(log[i]) && !BROKEN(log[i]) && !LIMITED(log[i]);
      }
    } else {
      var i :| 0 <= i < |log| && (UNSENT(log[i]) || BROKEN(log[i]) || LIMITED(log[i]));
      assert log[i] in log;
    }
  }

  lemma SmallShare(bad: nat, all: nat)
    requires bad <= all
    ensures bad as real / (if all == 0 then 1.0 else all as real) <= 0.005 <==> 200 * bad <= all
  {
    if all > 0 {
      var q := bad as real / all as real;
      assert q * all as real == bad as real;
      if q <= 0.005 { assert q * all as real <= 0.005 * all as real; }
      if q > 0.005 { assert q * all as real > 0.005 * all as real; }
    }
  }

  lemma RateIff(t: Stats, log: seq<Request>)
    requires Tallied(t, log) && t.connectErrors == t.transportErrors == 0
    ensures ErrorRate(t) <= 0.005 <==> 200 * Count(log, REJECTED) <= |log|
  {
    ErrorRateIs(t, log);
    CountsAddUp(log, |log|);
    FewerThanAll(log, BAD, |log|);
    SmallShare(Count(log, BAD), |log|);
  }

  lemma {:induction false} FewerThanAll(log: seq<Request>, p: Test, n: nat)
    requires n <= |log|
    ensures HowMany(log, p, n) <= n
  {
    if n > 0 { FewerThanAll(log, p, n - 1); }
  }

  /** Rung `r` is the grade of what `x` measured. */
  ghost predicate Graded(x: Reading, r: Rung) {
    && r.offered == x.offered && r.achieved == x.achieved
    && r.rateLimited == Count(Log(x), LIMITED) && (r.grade == ADMISSIBLE <==> Sound(x))
  }

  /** One rung, from the end of its run to its grade. */
  method Grade(x: Reading) returns (r: Rung)
    requires Counted(x.final, x.acts, x.ids)
    ensures Graded(x, r)
  {
    TotalTallied(x.final, x.acts, x.ids, |x.ids|);
    ghost var t := Total(Books(x.final, x.ids), |x.ids|);
    AllAnswered(Log(x));
    if t.connectErrors == t.transportErrors == 0 { RateIff(t, Log(x)); }
    r := GradeRung(x.offered, x.achieved, Books(x.final, x.ids), x.cpu, x.headroom, x.net);
  }

  /** The whole ladder: the knee is the highest rung that was sound and kept up, and there is one if
      any rung was and did.  So a rung in whose run a measured request was answered with a 429 is
      never the knee. */
  method Climb(readings: seq<Reading>) returns (rungs: seq<Rung>, knee: Option<nat>)
    requires forall i | 0 <= i < |readings| :: FromRun(readings[i])
    ensures |rungs| == |readings| && forall i | 0 <= i < |readings| :: Graded(readings[i], rungs[i])
    ensures knee.Some? ==> knee.value < |readings| && Sound(readings[knee.value])
                           && readings[knee.value].achieved >= readings[knee.value].offered as real * 0.95
    ensures forall i | 0 <= i < |readings| && Sound(readings[i]) && readings[i].achieved >= readings[i].offered as real * 0.95 ::
              knee.Some? && i <= knee.value
  {
    rungs := [];
    for n := 0 to |readings|
      invariant |rungs| == n && forall i | 0 <= i < n :: Graded(readings[i], rungs[i])
    {
      FromRunCounted(readings[n]);
      var r := Grade(readings[n]);
      rungs := rungs + [r];
    }
    knee := DetectKnee(rungs);
    if knee.Some? { assert Graded(readings[knee.value], rungs[knee.value]); }
    forall i | 0 <= i < |readings| && Sound(readings[i]) && readings[i].achieved >= readings[i].offered as real * 0.95
      ensures knee.Some? && i <= knee.value
    {
      assert Graded(readings[i], rungs[i]);
    }
  }
}
