/** That group commit gets anywhere (`await_ticket_or_lead`, `lead_group_commit` and `commit_batch` in
    src/storage/wal.rs): every step of the commit lowers a rank, so with no new writer and no fault
    it comes to its end, and then every operation has been acknowledged. */
module CommitProgress {
  import opened Basics
  import opened GroupCommit
  import opened Durability

  /** A step of the commit itself: not a writer's, a background flush or compaction, or a fault. */
  predicate Moves(a: Action) {
    Advances(a) && !a.Apply? && !a.Enqueue?
  }

  /** How far a leader is from its next batch; one that has done 16 still has to hand over. */
  function LeaderRank(l: Leader): (n: nat) {
    match l.phase
    case Top => if l.done < 16 then 7 else 11
    case Work(Drained, _, _) => 6
    case Work(Flushed, _, _) => 5
    case Work(Truncated, _, _) => 4
    case Work(Ready, _, _) => 3
    case Work(Written, _, _) => 2
    case Work(_, _, _) => 1
  }

  ghost function LeadRank(leaders: map<nat, Leader>): (n: nat) {
    if leaders == map[] then 0
    else
      var t :| t in leaders;
      LeaderRank(leaders[t])
  }

  /** What is left to do before the watermark moves: by the leader, by those who hand the lead on, and
      by a flush under way. */
  ghost function Rank(s: State): (n: nat) {
    LeadRank(s.q.leaders) + 10 * |s.q.announcing| + 8 * |s.q.claiming| + (if s.q.vacant then 9 else 0)
    + (if s.mem.parked.Some? then 1 else 0)
  }

  /** The operations that are not settled yet. */
  function Waiting(s: State): (n: int) {
    |s.mem.ends| - s.q.completed
  }

  ghost predicate Lower(r: State, s: State) {
    Waiting(r) < Waiting(s) || (Waiting(r) == Waiting(s) && Rank(r) < Rank(s))
  }

  lemma Alone(q: Queue, t: nat, l: Leader)
    requires OneLeader(q) && (q.leaders == map[] || t in q.leaders)
    ensures LeadRank(q.leaders[t := l]) == LeaderRank(l)
    ensures t in q.leaders ==> q.leaders - {t} == map[] && LeadRank(q.leaders) == LeaderRank(q.leaders[t])
  {
    var next := q.leaders[t := l];
    assert t in next && forall u | u in next :: u == t;
  }

  /** The leader goes on to a later stage of its batch. */
  lemma StageLower(s: State, a: Action, t: nat)
    requires Inv(s) && Enabled(s, a) && t in s.q.leaders
    requires a == FlushNothing(t) || a == Truncate(t) || a == HeaderOk(t) || a == WriteOk(t) || a == SyncOk(t)
    ensures Lower(Next(s, a), s)
  {
    Alone(s.q, t, Next(s, a).q.leaders[t]);
    assert Next(s, a).q.leaders == s.q.leaders[t := Next(s, a).q.leaders[t]];
  }

  lemma DrainLower(s: State, t: nat)
    requires Inv(s) && Enabled(s, Drain(t))
    ensures Lower(Next(s, Drain(t)), s)
  {
    Alone(s.q, t, Next(s, Drain(t)).q.leaders[t]);
  }

  /** A flush ends, the leader's or another. */
  lemma FlushLower(s: State)
    requires Inv(s) && Enabled(s, FlushOk)
    ensures Lower(Next(s, FlushOk), s)
  {
    if LeaderFlush(s) {
      var t := s.mem.flusher.t;
      Alone(s.q, t, Next(s, FlushOk).q.leaders[t]);
      assert Next(s, FlushOk).q.leaders == s.q.leaders[t := Next(s, FlushOk).q.leaders[t]];
    }
  }

  lemma LeaveLower(s: State, a: Action, t: nat)
    requires Inv(s) && Enabled(s, a) && (a == Leave(t) || a == StepDown(t))
    ensures Lower(Next(s, a), s)
  {
    Alone(s.q, t, s.q.leaders[t]);
    assert |s.q.announcing + {t}| <= |s.q.announcing| + 1 by {
      if t in s.q.announcing { assert s.q.announcing + {t} == s.q.announcing; }
    }
  }

  lemma HandLower(s: State, a: Action, t: nat)
    requires Inv(s) && Enabled(s, a) && (a == Announce(t) || a == Consume(t) || a == Claim(t))
    ensures Lower(Next(s, a), s)
  {
    match a
    case Announce(_) => assert |s.q.announcing - {t}| == |s.q.announcing| - 1;
    case Consume(_) =>
      if t in s.q.claiming { assert s.q.claiming + {t} == s.q.claiming; }
    case Claim(_) =>
      assert |s.q.claiming - {t}| == |s.q.claiming| - 1;
      if !s.q.active { Alone(s.q, t, Leader(0, Top)); }
  }

  lemma PublishLower(s: State, t: nat)
    requires Inv(s) && Enabled(s, Publish(t))
    ensures Waiting(Next(s, Publish(t))) < Waiting(s)
  {
  }

  /** Every step of the commit, whatever the threads do, lowers the rank: there are fewer operations
      left to settle, or as many and less to do before the next are. */
  lemma StepLowers(s: State, a: Action)
    requires Inv(s) && Enabled(s, a) && Moves(a)
    ensures Lower(Next(s, a), s) && Waiting(Next(s, a)) >= 0
  {
    StepKeepsInv(s, a);
    if a.FlushOk? {
      FlushLower(s);
    } else if a.Drain? {
      DrainLower(s, a.t);
    } else if a.Publish? {
      PublishLower(s, a.t);
    } else if a.Leave? || a.StepDown? {
      LeaveLower(s, a, a.t);
    } else if a.Announce? || a.Consume? || a.Claim? {
      HandLower(s, a, a.t);
    } else {
      StageLower(s, a, a.t);
    }
  }

  lemma SameWriters(s: State, a: Action)
    requires Inv(s) && Enabled(s, a) && Moves(a)
    ensures Next(s, a).mem.ends == s.mem.ends && Next(s, a).mem.busy == s.mem.busy
  {
  }

  /** No batch has failed. */
  predicate Unfailed(q: Queue) {
    q.failedFrom.None? && forall t | t in q.leaders :: !At(q, t, Failed)
  }

  lemma StaysUnfailed(s: State, a: Action)
    requires Inv(s) && Enabled(s, a) && Moves(a) && Unfailed(s.q)
    ensures Unfailed(Next(s, a).q)
  {
  }

  /** From every state in which no writer is in the middle of an operation: if the commit is left to
      itself it settles every operation, and if no batch has failed so far every one of them has been
      acknowledged then. */
  lemma {:induction false} CommitFinishes(s: State) returns (acts: seq<Action>, r: State)
    requires Inv(s) && !s.mem.busy
    ensures Steps(s, acts, r) && (forall a | a in acts :: Moves(a))
    ensures r.mem.ends == s.mem.ends && r.q.completed == |s.mem.ends|
    ensures Unfailed(s.q) ==> Acked(r.q) == |s.mem.ends|
    decreases Waiting(s), Rank(s)
  {
    if s.q.completed == |s.mem.ends| {
      acts, r := [], s;
    } else {
      var a := NeverStuck(s);
      StepLowers(s, a);
      StepKeepsInv(s, a);
      SameWriters(s, a);
      if Unfailed(s.q) { StaysUnfailed(s, a); }
      var rest;
      rest, r := CommitFinishes(Next(s, a));
      acts := [a] + rest;
      assert acts[1..] == rest;
    }
  }
}
