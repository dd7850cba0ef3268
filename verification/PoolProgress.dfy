/** Bound wiring never deadlocks on locks or connections; only leaked connections stop it. */
module PoolProgress {
  import opened Wrappers
  import opened Ledger
  import opened Protocol
  import opened Invariants
  import opened BoundSafety

  function Rank(pc: Pc): nat {
    match pc
    case ReadProduct => 10
    case ReadView => 9
    case ReadDirect => 8
    case Build => 7
    case Enter => 6
    case Lock => 5
    case SumLocked => 4
    case Insert => 3
    case Commit => 2
    case Rollback(_) => 1
    case Done => 0
    case Failed(_) => 0
  }

  function SumRanks(xs: seq<Session>): nat {
    if xs == [] then 0 else SumRanks(xs[..|xs| - 1]) + Rank(xs[|xs| - 1].pc)
  }

  function Measure(s: State): nat {
    SumRanks(s.sessions) + (if s.refresher.Refreshing? then 1 else 0)
  }

  /** The actions that use up the measure. */
  predicate Progressing(a: Action) {
    a.Step? || a.Fail? || a.RefreshPublish? || a.RefreshFail?
  }

  /** Those in which nothing raises. */
  predicate Advancing(a: Action) {
    a.Step? || a.RefreshPublish?
  }

  /** The insert of another session may hold the shared lock that the foreign key takes on
      the product row. */
  predicate SharesRow(s: State, i: nat, p: ProductId) {
    exists j :: 0 <= j < |s.sessions| && j != i && s.sessions[j].request.product == p &&
      (s.sessions[j].pc.Commit? || s.sessions[j].pc.Rollback?)
  }

  /** The step does not wait for such a lock: the row lock waits for it, and it for the row lock. */
  predicate Unblocked(s: State, a: Action) {
    a.Step? && a.i < |s.sessions| ==>
      var x := s.sessions[a.i];
      && (x.pc.Lock? ==> !SharesRow(s, a.i, x.request.product))
      && (x.pc.Insert? ==> LockAvailable(s, a.i, x.request.product))
  }

  /** No step raises, and none waits for a foreign key's lock. */
  ghost predicate Undisturbed(s: State, run: seq<Action>)
    requires ValidRun(Bound, s, run)
    decreases |run|
  {
    run == [] ||
    (Advancing(run[0]) && Unblocked(s, run[0]) && Undisturbed(Apply(Bound, s, run[0]), run[1..]))
  }

  ghost predicate Leaked(s: State, c: Conn) {
    exists i :: Holds(s, i, c) && s.sessions[i].pc.Failed?
  }

  predicate AllFinished(s: State) {
    !s.refresher.Refreshing? && forall i :: 0 <= i < |s.sessions| ==> Finished(s.sessions[i].pc)
  }

  lemma {:induction false} SumRanksUpdate(xs: seq<Session>, i: nat, y: Session)
    requires i < |xs|
    ensures SumRanks(xs[i := y]) + Rank(xs[i].pc) == SumRanks(xs) + Rank(y.pc)
  {
    var n := |xs| - 1;
    if i == n {
      assert xs[i := y][..n] == xs[..n];
    } else {
      assert xs[i := y][..n] == xs[..n][i := y];
      SumRanksUpdate(xs[..n], i, y);
    }
  }

  lemma RankDecreases(w: Wiring, s: State, a: Action)
    requires Enabled(w, s, a) && (a.Step? || a.Fail?)
    ensures var t := Apply(w, s, a);
      && |t.sessions| == |s.sessions| && t.refresher == s.refresher
      && t.sessions == s.sessions[a.i := t.sessions[a.i]]
      && Rank(t.sessions[a.i].pc) < Rank(s.sessions[a.i].pc)
  {
    match a
    case Step(i, c) => StepLowersRank(w, s, i, c);
    case Fail(i, taken) => FailLowersRank(w, s, i, taken);
    case _ =>
  }

  lemma StepLowersRank(w: Wiring, s: State, i: nat, c: Conn)
    requires Enabled(w, s, Step(i, c))
    ensures var t := Apply(w, s, Step(i, c));
      |t.sessions| == |s.sessions| && Rank(t.sessions[i].pc) < Rank(s.sessions[i].pc)
  {
  }

  lemma FailLowersRank(w: Wiring, s: State, i: nat, taken: Option<Conn>)
    requires Enabled(w, s, Fail(i, taken))
    ensures var t := Apply(w, s, Fail(i, taken));
      |t.sessions| == |s.sessions| && Rank(t.sessions[i].pc) < Rank(s.sessions[i].pc)
  {
  }

  lemma MeasureDecreases(w: Wiring, s: State, a: Action)
    requires Enabled(w, s, a) && Progressing(a)
    ensures Measure(Apply(w, s, a)) < Measure(s)
  {
    if a.Step? || a.Fail? {
      var t := Apply(w, s, a);
      RankDecreases(w, s, a);
      SumRanksUpdate(s.sessions, a.i, t.sessions[a.i]);
    }
  }

  lemma StepDoesNotLeak(w: Wiring, s: State, a: Action, c: Conn)
    requires Enabled(w, s, a) && !a.Fail? && !Leaked(s, c) && SessionsOk(s)
    ensures !Leaked(Apply(w, s, a), c)
  {
    hide Apply, Enabled, SessionsOk;
    if Leaked(Apply(w, s, a), c) {
      LeakStep(w, s, a, c);
    }
  }

  lemma HeldOutsideTransactionsIsLeaked(s: State)
    requires SessionsOk(s)
    ensures forall i, c :: Holds(s, i, c) && !InTransaction(s.sessions[i].pc) ==> Leaked(s, c)
  {
    forall i, c | Holds(s, i, c) && !InTransaction(s.sessions[i].pc) ensures Leaked(s, c) {
      assert SessionOk(s.sessions[i]);
    }
  }

  /** The session itself, or the one whose lock it waits for. */
  lemma NextInTransaction(s: State, i: nat, c: Conn) returns (a: Action)
    requires SessionsOk(s) && LocksOk(s) && i < |s.sessions| && InTransaction(s.sessions[i].pc)
    ensures Advancing(a) && Enabled(Bound, s, a) && Unblocked(s, a)
  {
    var p := s.sessions[i].request.product;
    var next: nat := i;
    if (s.sessions[i].pc.Lock? || s.sessions[i].pc.Insert?) && !LockAvailable(s, i, p) {
      next := s.locks[p];
    } else if s.sessions[i].pc.Lock? && SharesRow(s, i, p) {
      next :| next < |s.sessions| && (s.sessions[next].pc.Commit? || s.sessions[next].pc.Rollback?);
    }
    assert SessionOk(s.sessions[next]);
    a := Step(next, c);
  }

  /** The step that exists as long as one connection is not leaked. */
  lemma NextStep(s: State, pool: set<Conn>, c: Conn) returns (a: Action)
    requires SessionsOk(s) && LocksOk(s) && PoolOk(s, pool) && !AllFinished(s)
    requires c in pool && !Leaked(s, c)
    ensures Advancing(a) && Enabled(Bound, s, a) && Unblocked(s, a)
  {
    if s.refresher.Refreshing? {
      return RefreshPublish;
    }
    if i: nat :| i < |s.sessions| && InTransaction(s.sessions[i].pc) {
      a := NextInTransaction(s, i, c);
      return;
    }
    HeldOutsideTransactionsIsLeaked(s);
    var i: nat :| i < |s.sessions| && !Finished(s.sessions[i].pc);
    return Step(i, c);
  }

  lemma LeakedIsNotUsable(s: State, pool: set<Conn>, c: Conn)
    requires PoolOk(s, pool) && Leaked(s, c)
    ensures c !in s.free && !RefresherHolds(s, c)
    ensures forall i :: Holds(s, i, c) ==> s.sessions[i].pc.Failed?
  {
    var j :| Holds(s, j, c) && s.sessions[j].pc.Failed?;
  }

  lemma AllLeakedIsStuck(s: State, pool: set<Conn>, a: Action)
    requires SessionsOk(s) && PoolOk(s, pool)
    requires forall c :: c in pool ==> Leaked(s, c)
    requires Enabled(Bound, s, a) && Advancing(a)
    ensures a.Step? && s.sessions[a.i].pc.Build?
  {
    forall c | c in pool
      ensures c !in s.free && !RefresherHolds(s, c)
      ensures forall i :: Holds(s, i, c) ==> s.sessions[i].pc.Failed?
    {
      LeakedIsNotUsable(s, pool, c);
    }
    assert s.refresher.Refreshing? ==> RefresherHolds(s, s.refresher.conn);
    if a.Step? {
      var x := s.sessions[a.i];
      assert SessionOk(x);
      assert x.conn.Some? ==> Holds(s, a.i, x.conn.value);
    }
  }

  /** Deadlock freedom, exactly: in an unfinished state some statement can run without
      raising or waiting for a lock, foreign keys included, if and only if some connection
      of the pool is not leaked, or some session is at its one local step. */
  lemma ProgressUnlessAllLeaked(s: State, pool: set<Conn>)
    requires SessionsOk(s) && LocksOk(s) && PoolOk(s, pool) && !AllFinished(s)
    ensures (exists a :: Advancing(a) && Enabled(Bound, s, a) && Unblocked(s, a)) <==>
      (exists c :: c in pool && !Leaked(s, c)) ||
      (exists i :: 0 <= i < |s.sessions| && s.sessions[i].pc.Build?)
  {
    if c :| c in pool && !Leaked(s, c) {
      var a := NextStep(s, pool, c);
    } else if i: nat :| i < |s.sessions| && s.sessions[i].pc.Build? {
      assert Enabled(Bound, s, Step(i, 0)) && Advancing(Step(i, 0)) && Unblocked(s, Step(i, 0));
    } else if a :| Advancing(a) && Enabled(Bound, s, a) && Unblocked(s, a) {
      AllLeakedIsStuck(s, pool, a);
      assert false;
    }
  }

  /** From such a state every session can be driven to its end without a fault or a wait,
      within the measure. */
  lemma {:induction false} CanFinish(s: State, pool: set<Conn>, c: Conn) returns (run: seq<Action>)
    requires SessionsOk(s) && LocksOk(s) && PoolOk(s, pool) && c in pool && !Leaked(s, c)
    ensures ValidRun(Bound, s, run) && AllFinished(Run(Bound, s, run)) && |run| <= Measure(s)
    ensures Undisturbed(s, run)
    decreases Measure(s)
  {
    run := [];
    if !AllFinished(s) {
      var a := NextStep(s, pool, c);
      MeasureDecreases(Bound, s, a);
      SessionsOkStep(Bound, s, a);
      LocksOkStep(s, a);
      PoolOkStep(Bound, s, a, pool);
      StepDoesNotLeak(Bound, s, a, c);
      var rest := CanFinish(Apply(Bound, s, a), pool, c);
      run := [a] + rest;
      assert run[1..] == rest;
    }
  }

  // ---- A failure can come at any call ----

  /** Session i has failed, and nothing else is different but that its connection is free and
      its row lock gone. */
  ghost predicate Aborted(s: State, t: State, i: nat) {
    && i < |s.sessions| == |t.sessions| && t.sessions[i].pc.Failed? && t.sessions[i].conn.None?
    && t == s.(
         sessions := s.sessions[i := t.sessions[i]],
         free := s.free + ConnSet(s.sessions[i].conn),
         locks := map p | p in s.locks && s.locks[p] != i :: s.locks[p])
  }

  /** Bound: whatever call an unfinished session is at, it can raise, and then the session ends
      without a trace. */
  lemma AnyCallCanFail(s: State, i: nat) returns (run: seq<Action>)
    requires SessionsOk(s) && LocksOk(s) && i < |s.sessions|
    requires !Finished(s.sessions[i].pc) && !s.sessions[i].pc.Build?
    ensures ValidRun(Bound, s, run) && Aborted(s, Run(Bound, s, run), i)
    ensures run != [] && run[0] == Fail(i, None)
  {
    var x := s.sessions[i];
    assert SessionOk(x);
    assert [] + [Fail(i, None)] == [Fail(i, None)];
    RunSnoc(Bound, s, [], Fail(i, None));
    run := [Fail(i, None)];
    if InTransaction(x.pc) && !x.pc.Commit? && !x.pc.Rollback? {
      RunSnoc(Bound, s, run, Step(i, 0));
      run := run + [Step(i, 0)];
    } else if !InTransaction(x.pc) {
      NoLockOutside(s, i);
    }
  }

  lemma NoLockOutside(s: State, i: nat)
    requires LocksOk(s) && i < |s.sessions| && !InTransaction(s.sessions[i].pc)
    ensures s.locks == map p | p in s.locks && s.locks[p] != i :: s.locks[p]
  {
    assert forall p :: p in s.locks ==> PastLock(s.sessions[s.locks[p]].pc);
  }

  // ---- Over whole runs ----

  /** How often start() raised after acquire(). */
  function Leaks(run: seq<Action>): nat {
    if run == [] then 0
    else (if run[0].Fail? && run[0].taken.Some? then 1 else 0) + Leaks(run[1..])
  }

  lemma LeakStep(w: Wiring, s: State, a: Action, c: Conn)
    requires SessionsOk(s) && Enabled(w, s, a) && Leaked(Apply(w, s, a), c)
    ensures Leaked(s, c) || (a.Fail? && a.taken == Some(c))
  {
    var t := Apply(w, s, a);
    var i :| Holds(t, i, c) && t.sessions[i].pc.Failed?;
    assert SessionOk(s.sessions[i]);
    if s.sessions[i] == t.sessions[i] {
      assert Holds(s, i, c);
    }
  }

  /** Every leaked connection was leaked at the start or by a start() that raised in the run. */
  lemma {:induction false} LeaksAreCounted(s: State, run: seq<Action>, lost: set<Conn>) returns (all: set<Conn>)
    requires SessionsOk(s) && ValidRun(Bound, s, run) && forall c :: Leaked(s, c) ==> c in lost
    ensures |all| <= |lost| + Leaks(run) && forall c :: Leaked(Run(Bound, s, run), c) ==> c in all
    decreases |run|
  {
    all := lost;
    if run != [] {
      var a := run[0];
      var t := Apply(Bound, s, a);
      var more := lost + (if a.Fail? then ConnSet(a.taken) else {});
      SessionsOkStep(Bound, s, a);
      forall c | Leaked(t, c) ensures c in more {
        LeakStep(Bound, s, a, c);
      }
      all := LeaksAreCounted(t, run[1..], more);
    }
  }

  lemma SmallerSetMisses(a: set<Conn>, b: set<Conn>)
    requires |a| < |b|
    ensures exists c :: c in b && c !in a
  {
    if b <= a {
      SubsetIsSmaller(b, a);
    }
  }

  lemma NoLockWhenFinished(s: State)
    requires LocksOk(s) && AllFinished(s)
    ensures s.locks == map[]
  {
    assert forall p :: p in s.locks ==> PastLock(s.sessions[s.locks[p]].pc);
    assert forall p :: p !in s.locks;
  }

  /** Every Bound run in which start() raised fewer times than the pool has connections
      can be continued, without a fault, to a state in which every session has ended and
      the row locks are gone. */
  lemma {:induction false} EveryRunCanFinish(s: State, pool: set<Conn>, run: seq<Action>) returns (rest: seq<Action>)
    requires Initial(s, pool) && ValidRun(Bound, s, run) && Leaks(run) < |pool|
    ensures ValidRun(Bound, s, run + rest) && AllFinished(Run(Bound, s, run + rest))
    ensures Run(Bound, s, run + rest).locks == map[]
    ensures ValidRun(Bound, Run(Bound, s, run), rest) && Undisturbed(Run(Bound, s, run), rest)
  {
    var t := Run(Bound, s, run);
    LocksRun(s, run);
    PoolIsConserved(Bound, s, run, pool);
    var lost := LeaksAreCounted(s, run, {});
    SmallerSetMisses(lost, pool);
    var c :| c in pool && c !in lost;
    rest := CanFinish(t, pool, c);
    RunConcat(Bound, s, run, rest);
    LocksRun(t, rest);
    NoLockWhenFinished(Run(Bound, t, rest));
  }

  /** No session ever holds two row locks. */
  lemma OneLockPerSession(s: State, pool: set<Conn>, run: seq<Action>, p: ProductId, q: ProductId)
    requires Initial(s, pool) && ValidRun(Bound, s, run)
    requires var t := Run(Bound, s, run); p in t.locks && q in t.locks && t.locks[p] == t.locks[q]
    ensures p == q
  {
    LocksRun(s, run);
  }
}
