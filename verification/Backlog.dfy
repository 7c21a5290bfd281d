/** The bounded backlog of the open-loop load generator, its scheduler and its workers
    (`Backlog` and `run_rung` in examples/http_saturation.rs), interleaved step by step.

    A step is what a thread does under the queue's lock, or one access to an atomic.  Times and
    the outcomes of requests are inputs. */
module Backlog {
  import opened Basics
  import opened RungGrade

  type Tid = nat
  type Time = nat

  /** A worker waits for an item, has taken one, is sending with or without counting, or has
      been told that there are no more. */
  datatype Worker = Waiting | Took(at: Time) | Sending(start: Time, count: bool) | Gone

  /** A worker and its books.  `taken` (how many requests it has taken while measuring) and
      `log` (those of them that it has finished) are bookkeeping; no step depends on them. */
  datatype Desk = Desk(worker: Worker, stats: Stats, taken: nat, log: seq<Request>)

  /** `recording`: the length that a push has reached and not yet added to `maxSeen`.
      `attempts`, `accepted`, `popped` and `peak` (the longest the queue has been) are
      bookkeeping; no step depends on them. */
  datatype State = State(
    cap: nat, q: seq<Time>, maxSeen: nat, overruns: nat, closed: bool, measuring: bool, recording: Option<nat>,
    desks: map<Tid, Desk>, attempts: nat, accepted: seq<Time>, popped: seq<Time>, peak: nat)

  function StartWith(cap: nat, ids: set<Tid>, none: Stats): (s: State) {
    State(cap, [], 0, 0, false, false, None, map w | w in ids :: Desk(Waiting, none, 0, []), 0, [], [], 0)
  }

  function Start(cap: nat, ids: set<Tid>): (s: State) {
    StartWith(cap, ids, NO_STATS)
  }

  datatype Action =
    | Push(at: Time) | Record | Measure | Close                       // the scheduler
    | Pop(w: Tid) | Quit(w: Tid) | Load(w: Tid)                       // a worker
    | Finish(w: Tid, login: bool, out: Outcome, elapsed: nat)

  predicate Is(s: State, w: Tid, worker: Worker) {
    w in s.desks && s.desks[w].worker == worker
  }

  predicate Enabled(s: State, a: Action) {
    match a
    case Push(_) => !s.closed && s.recording.None?
    case Record => s.recording.Some?
    case Measure => !s.closed && s.recording.None?
    case Close => !s.closed && s.recording.None?
    case Pop(w) => Is(s, w, Waiting) && s.q != []
    case Quit(w) => Is(s, w, Waiting) && s.q == [] && s.closed
    case Load(w) => w in s.desks && s.desks[w].worker.Took?
    case Finish(w, _, out, _) => w in s.desks && s.desks[w].worker.Sending?
                                 && (out.Answered? ==> Bucket(out.limiter) < BUCKETS)
  }

  /** The worker loads `measuring`, and counts its request if that is set. */
  function Loaded(d: Desk, measuring: bool): (r: Desk)
    requires d.worker.Took?
  {
    d.(worker := Sending(d.worker.at, measuring), taken := d.taken + Once(measuring))
  }

  function Finished(d: Desk, login: bool, out: Outcome, elapsed: nat): (r: Desk)
    requires d.worker.Sending? && (out.Answered? ==> Bucket(out.limiter) < |d.stats.shed|)
  {
    if d.worker.count
    then Desk(Waiting, Tally(d.stats, login, out, elapsed), d.taken, d.log + [Request(login, out, elapsed)])
    else d.(worker := Waiting)
  }

  function Next(s: State, a: Action): (r: State)
    requires Enabled(s, a) && Known(s)
  {
    match a
    case Push(at) =>
      if |s.q| >= s.cap then s.(overruns := s.overruns + 1, attempts := s.attempts + 1)
      else
        var len := |s.q| + 1;
        s.(q := s.q + [at], recording := Some(len), attempts := s.attempts + 1, accepted := s.accepted + [at],
           peak := if s.peak < len then len else s.peak)
    case Record => s.(maxSeen := if s.maxSeen < s.recording.value then s.recording.value else s.maxSeen, recording := None)
    case Measure => s.(measuring := true)
    case Close => s.(closed := true)
    case Pop(w) =>
      s.(q := s.q[1..], popped := s.popped + [s.q[0]], desks := s.desks[w := s.desks[w].(worker := Took(s.q[0]))])
    case Quit(w) => s.(desks := s.desks[w := s.desks[w].(worker := Gone)])
    case Load(w) => s.(desks := s.desks[w := Loaded(s.desks[w], s.measuring)])
    case Finish(w, login, out, elapsed) => s.(desks := s.desks[w := Finished(s.desks[w], login, out, elapsed)])
  }

  /** Every worker has its buckets. */
  predicate Known(s: State) {
    forall w | w in s.desks :: |s.desks[w].stats.shed| == BUCKETS
  }

  predicate QueueOk(s: State) {
    && |s.q| <= s.peak <= s.cap
    && s.accepted == s.popped + s.q
    && s.attempts == |s.accepted| + s.overruns
    && (if s.recording.None? then s.maxSeen == s.peak
        else s.peak == if s.maxSeen < s.recording.value then s.recording.value else s.maxSeen)
    && (s.closed ==> s.recording.None?)
  }

  predicate GoneOk(s: State) {
    forall w | w in s.desks && s.desks[w].worker == Gone :: s.closed && s.q == []
  }

  function InFlight(w: Worker): (n: nat) {
    if w.Sending? && w.count then 1 else 0
  }

  /** The books balance: they say what the finished requests were, and every request taken is in
      flight or finished. */
  predicate BooksOk(d: Desk) {
    StatsOk(d.stats) && Tallied(d.stats, d.log) && |d.log| + InFlight(d.worker) == d.taken
  }

  predicate Inv(s: State) {
    Known(s) && QueueOk(s) && GoneOk(s) && forall w | w in s.desks :: BooksOk(s.desks[w])
  }

  lemma StartWithOk(cap: nat, ids: set<Tid>, none: Stats)
    requires StatsOk(none) && Tallied(none, [])
    ensures Inv(StartWith(cap, ids, none))
  {
  }

  lemma StartOk(cap: nat, ids: set<Tid>)
    ensures Inv(Start(cap, ids))
  {
    NoStatsOk();
    NoneTallied();
    StartWithOk(cap, ids, NO_STATS);
  }

  lemma FinishedOk(d: Desk, login: bool, out: Outcome, elapsed: nat)
    requires BooksOk(d) && d.worker.Sending? && (out.Answered? ==> Bucket(out.limiter) < BUCKETS)
    ensures BooksOk(Finished(d, login, out, elapsed))
  {
    TallyKeeps(d.stats, login, out, elapsed);
    TallyCounts(d.stats, d.log, Request(login, out, elapsed));
  }

  lemma LoadedOk(d: Desk, measuring: bool)
    requires BooksOk(d) && d.worker.Took?
    ensures BooksOk(Loaded(d, measuring))
  {
  }

  /** A step that changes one desk and nothing of the queue. */
  lemma DeskStep(s: State, w: Tid, d: Desk)
    requires Inv(s) && w in s.desks && BooksOk(d) && (d.worker == Gone ==> s.closed && s.q == [])
    ensures Inv(s.(desks := s.desks[w := d])) && s.desks[w := d].Keys == s.desks.Keys
  {
  }

  lemma TookOk(d: Desk, at: Time)
    requires BooksOk(d) && d.worker == Waiting
    ensures BooksOk(d.(worker := Took(at)))
  {
  }

  /** The first item leaves the queue. */
  lemma PoppedOk(s: State)
    requires Inv(s) && s.q != [] && forall w | w in s.desks :: s.desks[w].worker != Gone
    ensures Inv(s.(q := s.q[1..], popped := s.popped + [s.q[0]]))
  {
    assert s.popped + s.q == (s.popped + [s.q[0]]) + s.q[1..];
  }

  lemma PopStep(s: State, w: Tid)
    requires Inv(s) && Enabled(s, Pop(w))
    ensures Inv(Next(s, Pop(w)))
  {
    var r := s.(q := s.q[1..], popped := s.popped + [s.q[0]]);
    PoppedOk(s);
    TookOk(s.desks[w], s.q[0]);
    DeskStep(r, w, s.desks[w].(worker := Took(s.q[0])));
  }

  lemma PushStep(s: State, at: Time)
    requires Inv(s) && Enabled(s, Push(at))
    ensures Inv(Next(s, Push(at))) && Next(s, Push(at)).desks == s.desks
  {
    if |s.q| < s.cap { assert s.accepted + [at] == s.popped + (s.q + [at]); }
  }

  lemma SchedulerStep(s: State, a: Action)
    requires Inv(s) && Enabled(s, a) && (a.Record? || a.Measure? || a.Close?)
    ensures Inv(Next(s, a)) && Next(s, a).desks == s.desks
  {
  }

  lemma WorkerStep(s: State, a: Action, w: Tid)
    requires Inv(s) && Enabled(s, a) && (a.Quit? || a.Load? || a.Finish?) && a.w == w
    ensures Inv(Next(s, a)) && Next(s, a).desks.Keys == s.desks.Keys
  {
    var d := s.desks[w];
    match a
    case Quit(_) => DeskStep(s, w, d.(worker := Gone));
    case Load(_) => LoadedOk(d, s.measuring); DeskStep(s, w, Loaded(d, s.measuring));
    case Finish(_, login, out, elapsed) => FinishedOk(d, login, out, elapsed); DeskStep(s, w, Finished(d, login, out, elapsed));
  }

  /** Every step of the scheduler and of every worker keeps the invariant. */
  lemma StepKeepsInv(s: State, a: Action)
    requires Inv(s) && Enabled(s, a)
    ensures Inv(Next(s, a)) && Next(s, a).cap == s.cap && Next(s, a).desks.Keys == s.desks.Keys
  {
    match a
    case Push(at) => PushStep(s, at);
    case Pop(w) => PopStep(s, w);
    case Quit(w) => WorkerStep(s, a, w);
    case Load(w) => WorkerStep(s, a, w);
    case Finish(w, _, _, _) => WorkerStep(s, a, w);
    case _ => SchedulerStep(s, a);
  }

  // ----- Runs

  ghost predicate StepAt(trace: seq<State>, acts: seq<Action>, i: nat)
    requires |trace| == |acts| + 1 && i < |acts|
  {
    Known(trace[i]) && Enabled(trace[i], acts[i]) && trace[i + 1] == Next(trace[i], acts[i])
  }

  ghost predicate IsRun(trace: seq<State>, acts: seq<Action>, cap: nat, ids: set<Tid>) {
    && |trace| == |acts| + 1 && trace[0] == Start(cap, ids)
    && forall i | 0 <= i < |acts| :: StepAt(trace, acts, i)
  }

  lemma {:induction false} RunKeepsInv(trace: seq<State>, acts: seq<Action>, cap: nat, ids: set<Tid>, i: nat)
    requires IsRun(trace, acts, cap, ids) && i <= |acts|
    ensures Inv(trace[i]) && trace[i].cap == cap && trace[i].desks.Keys == ids
  {
    if i == 0 {
      StartOk(cap, ids);
    } else {
      RunKeepsInv(trace, acts, cap, ids, i - 1);
      assert StepAt(trace, acts, i - 1);
      StepKeepsInv(trace[i - 1], acts[i - 1]);
    }
  }

  // ----- The queue, step by step

  /** Every step of every run: a push is dropped, and counted as an overrun, exactly when the queue
      is full, and otherwise goes to the end of the queue; a worker takes the first item; nothing
      else changes the queue or the overruns. */
  lemma QueueSteps(trace: seq<State>, acts: seq<Action>, cap: nat, ids: set<Tid>, i: nat)
    requires IsRun(trace, acts, cap, ids) && i < |acts|
    ensures var s, r := trace[i], trace[i + 1];
            match acts[i]
            case Push(at) =>
              if |s.q| == cap then r.q == s.q && r.overruns == s.overruns + 1 && r.recording.None?
              else |s.q| < cap && r.q == s.q + [at] && r.overruns == s.overruns && r.recording == Some(|r.q|)
            case Record => r.q == s.q && r.overruns == s.overruns && r.recording.None?
            case Pop(w) => s.q != [] && Is(r, w, Took(s.q[0])) && r.q == s.q[1..] && r.overruns == s.overruns
            case _ => r.q == s.q && r.overruns == s.overruns
  {
    RunKeepsInv(trace, acts, cap, ids, i);
    assert StepAt(trace, acts, i);
  }

  /** How many of the first `n` steps were pushes to a full queue. */
  function Dropped(trace: seq<State>, acts: seq<Action>, cap: nat, n: nat): (c: nat)
    requires n <= |acts| <= |trace|
  {
    if n == 0 then 0 else Dropped(trace, acts, cap, n - 1) + Once(acts[n - 1].Push? && |trace[n - 1].q| == cap)
  }

  function Pushes(acts: seq<Action>, n: nat): (c: nat)
    requires n <= |acts|
  {
    if n == 0 then 0 else Pushes(acts, n - 1) + Once(acts[n - 1].Push?)
  }

  /** The items that found room, and those that workers took, within the first `n` steps. */
  function Accepted(trace: seq<State>, acts: seq<Action>, cap: nat, n: nat): (items: seq<Time>)
    requires n <= |acts| <= |trace|
  {
    if n == 0 then []
    else if acts[n - 1].Push? && |trace[n - 1].q| < cap then Accepted(trace, acts, cap, n - 1) + [acts[n - 1].at]
    else Accepted(trace, acts, cap, n - 1)
  }

  function TakenItems(trace: seq<State>, acts: seq<Action>, n: nat): (items: seq<Time>)
    requires n <= |acts| <= |trace|
  {
    if n == 0 then []
    else if acts[n - 1].Pop? && trace[n - 1].q != [] then TakenItems(trace, acts, n - 1) + [trace[n - 1].q[0]]
    else TakenItems(trace, acts, n - 1)
  }

  lemma {:induction false} RunItems(trace: seq<State>, acts: seq<Action>, cap: nat, ids: set<Tid>, i: nat)
    requires IsRun(trace, acts, cap, ids) && i <= |acts|
    ensures trace[i].accepted == Accepted(trace, acts, cap, i) && trace[i].popped == TakenItems(trace, acts, i)
  {
    if i > 0 {
      RunItems(trace, acts, cap, ids, i - 1);
      QueueSteps(trace, acts, cap, ids, i - 1);
      assert StepAt(trace, acts, i - 1);
    }
  }

  lemma {:induction false} RunCounts(trace: seq<State>, acts: seq<Action>, cap: nat, ids: set<Tid>, i: nat)
    requires IsRun(trace, acts, cap, ids) && i <= |acts|
    ensures trace[i].overruns == Dropped(trace, acts, cap, i) && trace[i].attempts == Pushes(acts, i)
  {
    if i > 0 {
      RunCounts(trace, acts, cap, ids, i - 1);
      QueueSteps(trace, acts, cap, ids, i - 1);
      assert StepAt(trace, acts, i - 1);
    }
  }

  /** The longest the queue has been. */
  ghost predicate Longest(trace: seq<State>, i: nat, n: nat)
    requires i < |trace|
  {
    (forall j | 0 <= j <= i :: |trace[j].q| <= n) && exists j | 0 <= j <= i :: |trace[j].q| == n
  }

  lemma {:induction false} PeakIsLongest(trace: seq<State>, acts: seq<Action>, cap: nat, ids: set<Tid>, i: nat)
    requires IsRun(trace, acts, cap, ids) && i <= |acts|
    ensures Longest(trace, i, trace[i].peak)
  {
    if i > 0 {
      PeakIsLongest(trace, acts, cap, ids, i - 1);
      RunKeepsInv(trace, acts, cap, ids, i);
      assert StepAt(trace, acts, i - 1);
      var j :| 0 <= j <= i - 1 && |trace[j].q| == trace[i - 1].peak;
      assert trace[i].peak == trace[i - 1].peak || |trace[i].q| == trace[i].peak;
    }
  }

  /** At every point of every run: the queue and the recorded maximum are within the cap, every
      attempt is accounted for, and items leave in the order they came. */
  lemma BacklogBounded(trace: seq<State>, acts: seq<Action>, cap: nat, ids: set<Tid>, i: nat)
    requires IsRun(trace, acts, cap, ids) && i <= |acts|
    ensures |trace[i].q| <= cap && trace[i].maxSeen <= cap
    ensures Accepted(trace, acts, cap, i) == TakenItems(trace, acts, i) + trace[i].q
    ensures Pushes(acts, i) == |Accepted(trace, acts, cap, i)| + Dropped(trace, acts, cap, i)
    ensures trace[i].overruns == Dropped(trace, acts, cap, i)
    ensures trace[i].recording.None? ==> Longest(trace, i, trace[i].maxSeen)
  {
    RunKeepsInv(trace, acts, cap, ids, i);
    RunCounts(trace, acts, cap, ids, i);
    RunItems(trace, acts, cap, ids, i);
    PeakIsLongest(trace, acts, cap, ids, i);
  }

  // ----- The requests of a worker, from the steps alone

  /** The scheduler has begun to measure within the first `n` steps. */
  predicate Measuring(acts: seq<Action>, n: nat)
    requires n <= |acts|
  {
    exists j | 0 <= j < n :: acts[j] == Measure
  }

  /** The last item that `w` loaded within the first `n` steps is measured. */
  predicate Counting(acts: seq<Action>, w: Tid, n: nat)
    requires n <= |acts|
  {
    n > 0 && if acts[n - 1] == Load(w) then Measuring(acts, n - 1) else Counting(acts, w, n - 1)
  }

  /** How many items it has loaded while measuring. */
  function Loads(acts: seq<Action>, w: Tid, n: nat): (c: nat)
    requires n <= |acts|
  {
    if n == 0 then 0 else Loads(acts, w, n - 1) + Once(acts[n - 1] == Load(w) && Measuring(acts, n - 1))
  }

  /** The measured requests it has finished. */
  function Sent(acts: seq<Action>, w: Tid, n: nat): (log: seq<Request>)
    requires n <= |acts|
  {
    if n == 0 then []
    else
      Sent(acts, w, n - 1) +
      match acts[n - 1]
      case Finish(v, login, out, elapsed) => if v == w && Counting(acts, w, n - 1) then [Request(login, out, elapsed)] else []
      case _ => []
  }

  lemma {:induction false} RunMeasures(trace: seq<State>, acts: seq<Action>, cap: nat, ids: set<Tid>, i: nat)
    requires IsRun(trace, acts, cap, ids) && i <= |acts|
    ensures trace[i].measuring <==> Measuring(acts, i)
  {
    if i > 0 {
      RunMeasures(trace, acts, cap, ids, i - 1);
      assert StepAt(trace, acts, i - 1);
    }
  }

  lemma {:induction false} RunCloses(trace: seq<State>, acts: seq<Action>, cap: nat, ids: set<Tid>, i: nat)
    requires IsRun(trace, acts, cap, ids) && i <= |acts|
    ensures trace[i].closed <==> Close in acts[..i]
  {
    if i > 0 {
      RunCloses(trace, acts, cap, ids, i - 1);
      assert StepAt(trace, acts, i - 1);
      assert acts[..i] == acts[..i - 1] + [acts[i - 1]];
    }
  }

  ghost predicate DeskIs(d: Desk, acts: seq<Action>, w: Tid, n: nat)
    requires n <= |acts|
  {
    && d.log == Sent(acts, w, n) && d.taken == Loads(acts, w, n)
    && (d.worker.Sending? ==> d.worker.count == Counting(acts, w, n))
  }

  lemma DeskNext(s: State, a: Action, w: Tid, acts: seq<Action>, n: nat)
    requires Known(s) && Enabled(s, a) && w in s.desks && n < |acts| && acts[n] == a && DeskIs(s.desks[w], acts, w, n)
    requires s.measuring <==> Measuring(acts, n)
    ensures w in Next(s, a).desks && DeskIs(Next(s, a).desks[w], acts, w, n + 1)
  {
  }

  lemma {:induction false} RunDesk(trace: seq<State>, acts: seq<Action>, cap: nat, ids: set<Tid>, w: Tid, i: nat)
    requires IsRun(trace, acts, cap, ids) && w in ids && i <= |acts|
    ensures w in trace[i].desks && DeskIs(trace[i].desks[w], acts, w, i)
  {
    if i > 0 {
      RunDesk(trace, acts, cap, ids, w, i - 1);
      RunMeasures(trace, acts, cap, ids, i - 1);
      assert StepAt(trace, acts, i - 1);
      DeskNext(trace[i - 1], acts[i - 1], w, acts, i - 1);
    }
  }

  lemma WorkerMoves(s: State, w: Tid) returns (a: Action)
    requires Known(s) && w in s.desks && s.desks[w].worker != Gone && s.closed
    ensures Enabled(s, a) && Next(s, a) != s
  {
    match s.desks[w].worker
    case Waiting => a := if s.q == [] then Quit(w) else Pop(w);
    case Took(_) => a := Load(w);
    case Sending(_, _) => a := Finish(w, false, Failed(ReadFault), 0);
    assert Next(s, a).desks[w].worker != s.desks[w].worker;
  }

  /** In every state of every run in which a worker is not done, some thread can move on. */
  lemma NeverStuck(trace: seq<State>, acts: seq<Action>, cap: nat, ids: set<Tid>, i: nat, w: Tid)
    requires IsRun(trace, acts, cap, ids) && i <= |acts| && w in ids && !Is(trace[i], w, Gone)
    ensures Known(trace[i]) && exists a :: Enabled(trace[i], a) && Next(trace[i], a) != trace[i]
  {
    RunKeepsInv(trace, acts, cap, ids, i);
    var s := trace[i];
    if s.recording.Some? {
      assert Enabled(s, Record) && Next(s, Record).recording.None?;
    } else if !s.closed {
      assert Enabled(s, Close) && Next(s, Close).closed;
    } else {
      var a := WorkerMoves(s, w);
    }
  }

  /** When all workers have been told that there are no more items, every accepted item has
      been taken exactly once, in order.  The books of every worker then say, column by column, what
      came of the requests it finished, and those are all the items it loaded while measuring. */
  lemma AllDrained(trace: seq<State>, acts: seq<Action>, cap: nat, ids: set<Tid>, i: nat)
    requires IsRun(trace, acts, cap, ids) && i <= |acts| && ids != {}
    requires forall w | w in ids :: Is(trace[i], w, Gone)
    ensures TakenItems(trace, acts, i) == Accepted(trace, acts, cap, i) && Close in acts[..i]
    ensures Pushes(acts, i) == |TakenItems(trace, acts, i)| + Dropped(trace, acts, cap, i)
    ensures forall w | w in ids :: Accounted(trace[i], acts, w, i)
  {
    RunKeepsInv(trace, acts, cap, ids, i);
    RunCounts(trace, acts, cap, ids, i);
    RunItems(trace, acts, cap, ids, i);
    RunCloses(trace, acts, cap, ids, i);
    var s := trace[i];
    var w :| w in ids;
    assert Is(s, w, Gone);
    assert s.popped + [] == s.popped;
    forall x | x in ids ensures Accounted(s, acts, x, i) {
      assert Is(s, x, Gone);
      RunDesk(trace, acts, cap, ids, x, i);
    }
  }

  /** The books of `w` are those of its measured requests, of which there are as many as it loaded. */
  ghost predicate Accounted(s: State, acts: seq<Action>, w: Tid, n: nat)
    requires n <= |acts|
  {
    && w in s.desks && StatsOk(s.desks[w].stats) && Tallied(s.desks[w].stats, Sent(acts, w, n))
    && |Sent(acts, w, n)| == Loads(acts, w, n)
  }
}
