/** The wiring the factories build: a session inside the unit of work holds one connection
    and waits for a second one, so the pool can run dry. */
module UnboundPool {
  import opened Wrappers
  import opened Ledger
  import opened Protocol
  import opened Invariants
  import opened PoolProgress
  import opened UnboundTrace

  /** Nothing can run any more unless a call raises. */
  ghost predicate Stuck(s: State) {
    forall a :: Advancing(a) ==> !Enabled(Unbound, s, a)
  }

  ghost predicate Deadlock(s: State) {
    !AllFinished(s) && Stuck(s)
  }

  ghost predicate DeadlocksBy(s: State, run: seq<Action>) {
    ValidRun(Unbound, s, run) && Deadlock(Run(Unbound, s, run))
  }

  predicate NeedsPoolConnection(pc: Pc) {
    IsStatement(pc) || pc.Enter?
  }

  lemma NoLockTaken(s: State, a: Action)
    requires s.locks == map[] && Enabled(Unbound, s, a)
    ensures Apply(Unbound, s, a).locks == map[]
  {
  }

  /** No row lock outlives its statement. */
  lemma {:induction false} NoRowLocks(s: State, run: seq<Action>)
    requires s.locks == map[] && ValidRun(Unbound, s, run)
    ensures Run(Unbound, s, run).locks == map[]
    decreases |run|
  {
    if run != [] {
      hide Enabled;
      NoLockTaken(s, run[0]);
      hide Apply;
      NoRowLocks(Apply(Unbound, s, run[0]), run[1..]);
    }
  }

  /** What a deadlock looks like: no connection is free and every unfinished session is
      waiting for one, typically while holding one. */
  lemma StuckExactly(s: State)
    requires s.locks == map[] && !AllFinished(s)
    ensures Stuck(s) <==>
      s.refresher.Idle? && s.free == {} &&
      forall i :: 0 <= i < |s.sessions| && !Finished(s.sessions[i].pc) ==> NeedsPoolConnection(s.sessions[i].pc)
  {
    if s.refresher.Refreshing? {
      assert Advancing(RefreshPublish) && Enabled(Unbound, s, RefreshPublish);
    } else if i: nat :| i < |s.sessions| && !Finished(s.sessions[i].pc) && !NeedsPoolConnection(s.sessions[i].pc) {
      assert Advancing(Step(i, 0)) && Enabled(Unbound, s, Step(i, 0));
    } else if s.free != {} {
      var c :| c in s.free;
      var i: nat :| i < |s.sessions| && !Finished(s.sessions[i].pc);
      assert Advancing(Step(i, c)) && Enabled(Unbound, s, Step(i, c));
    }
  }

  // ---- A pool with more connections than requests cannot run dry ----

  /** The requests that get past the construction of the entity. */
  predicate Acceptable(r: Request) {
    r.quantity > 0 && MetadataConsistent(r.kind, r.metadata)
  }

  function Entrants(xs: seq<Session>): nat {
    if xs == [] then 0
    else Entrants(xs[..|xs| - 1]) + (if Acceptable(xs[|xs| - 1].request) then 1 else 0)
  }

  function HeldBy(xs: seq<Session>): set<Conn> {
    if xs == [] then {} else HeldBy(xs[..|xs| - 1]) + ConnSet(xs[|xs| - 1].conn)
  }

  lemma {:induction false} HeldByAtMost(xs: seq<Session>)
    requires forall i :: 0 <= i < |xs| ==> SessionOk(xs[i])
    ensures |HeldBy(xs)| <= Entrants(xs)
    ensures forall i :: 0 <= i < |xs| && xs[i].conn.Some? ==> xs[i].conn.value in HeldBy(xs)
  {
    if xs != [] {
      HeldByAtMost(xs[..|xs| - 1]);
      assert SessionOk(xs[|xs| - 1]);
    }
  }

  lemma {:induction false} SameEntrants(xs: seq<Session>, ys: seq<Session>)
    requires |xs| == |ys| && forall i :: 0 <= i < |xs| ==> xs[i].request == ys[i].request
    ensures Entrants(xs) == Entrants(ys) <= |xs|
  {
    if xs != [] {
      SameEntrants(xs[..|xs| - 1], ys[..|ys| - 1]);
    }
  }

  /** No run deadlocks while the pool has more connections than there are acceptable
      requests, and so none does while it has more than there are sessions. */
  lemma LargePoolNeverDeadlocks(s: State, pool: set<Conn>, run: seq<Action>)
    requires Initial(s, pool) && ValidRun(Unbound, s, run) && Entrants(s.sessions) < |pool|
    ensures !Deadlock(Run(Unbound, s, run))
  {
    var t := Run(Unbound, s, run);
    if Deadlock(t) {
      PoolIsConserved(Unbound, s, run, pool);
      NoRowLocks(s, run);
      RequestsStay(Unbound, s, run);
      StuckExactly(t);
      HeldByAtMost(t.sessions);
      SameEntrants(s.sessions, t.sessions);
      AllHeld(t, pool);
      SubsetIsSmaller(pool, HeldBy(t.sessions));
    }
  }

  lemma AllHeld(s: State, pool: set<Conn>)
    requires PoolOk(s, pool) && s.free == {} && s.refresher.Idle?
    requires forall i :: 0 <= i < |s.sessions| && s.sessions[i].conn.Some? ==>
      s.sessions[i].conn.value in HeldBy(s.sessions)
    ensures pool <= HeldBy(s.sessions)
  {
    forall c | c in pool ensures c in HeldBy(s.sessions) {
      var i :| Holds(s, i, c);
    }
  }

  // ---- One connection writes nothing ----

  lemma WritingTakesTwo(s: State, a: Action, pool: set<Conn>)
    requires SessionsOk(s) && PoolOk(s, pool) && Enabled(Unbound, s, a) && |pool| <= 1
    ensures Apply(Unbound, s, a).log == s.log
  {
    if a.Step? && WritesRow(s.sessions[a.i]) {
      assert SessionOk(s.sessions[a.i]);
      var c := s.sessions[a.i].conn.value;
      assert Holds(s, a.i, c);
      SubsetIsSmaller({c, a.conn}, pool);
    } else if a.Step? || a.Fail? {
      SessionWrites(s, a);
    }
  }

  /** With one connection no request is ever answered with a movement: the unit of work
      holds it, and the insert waits for another. */
  lemma {:induction false} OneConnectionWritesNothing(s: State, pool: set<Conn>, run: seq<Action>)
    requires SessionsOk(s) && PoolOk(s, pool) && ValidRun(Unbound, s, run) && |pool| <= 1
    ensures Run(Unbound, s, run).log == s.log
    decreases |run|
  {
    if run != [] {
      hide Apply, Enabled;
      WritingTakesTwo(s, run[0], pool);
      SessionsOkStep(Unbound, s, run[0]);
      PoolOkStep(Unbound, s, run[0], pool);
      OneConnectionWritesNothing(Apply(Unbound, s, run[0]), pool, run[1..]);
    }
  }
}
