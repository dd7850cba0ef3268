/** Bound wiring: the row lock makes the stock check and the insert one unit. */
module BoundSafety {
  import opened Wrappers
  import opened Ledger
  import opened Protocol
  import opened Invariants

  predicate PastLock(pc: Pc) {
    InTransaction(pc) && !pc.Lock?
  }

  ghost predicate MustHoldLock(x: Session) {
    x.pc.SumLocked? || ((x.pc.Insert? || x.pc.Commit?) && Decreases(x.request.kind))
  }

  ghost predicate LocksOk(s: State) {
    && (forall p :: p in s.locks ==>
          s.locks[p] < |s.sessions| &&
          s.sessions[s.locks[p]].request.product == p &&
          PastLock(s.sessions[s.locks[p]].pc))
    && (forall i :: 0 <= i < |s.sessions| && MustHoldLock(s.sessions[i]) ==>
          s.sessions[i].request.product in s.locks && s.locks[s.sessions[i].request.product] == i)
  }

  /** The locked sum is a lower bound for a session that is past its locked check. */
  ghost predicate Covered(s: State, x: Session) {
    (x.pc.Insert? || x.pc.Commit?) && Decreases(x.request.kind) ==>
      x.request.quantity <= Stock(s.log, x.request.product)
  }

  ghost predicate ChecksOk(s: State) {
    forall i :: 0 <= i < |s.sessions| ==> Covered(s, s.sessions[i])
  }

  ghost predicate StockOk(s: State) {
    forall p :: Stock(s.log, p) >= 0
  }

  ghost predicate Inv(s: State) {
    SessionsOk(s) && LocksOk(s) && ChecksOk(s) && StockOk(s)
  }

  lemma InitialInv(s: State, pool: set<Conn>)
    requires Initial(s, pool) && StockOk(s)
    ensures Inv(s) && PoolOk(s, pool)
  {
  }

  /** What one action may do to the row locks: nothing, take the lock that the
      session waits for, or drop the locks of a session that leaves its transaction. */
  ghost predicate LockEffect(s: State, t: State, i: nat) {
    && i < |s.sessions| == |t.sessions|
    && (forall j :: 0 <= j < |s.sessions| && j != i ==> t.sessions[j] == s.sessions[j])
    && var x, y := s.sessions[i], t.sessions[i];
       && y.request == x.request
       && (|| (t.locks == s.locks && (PastLock(x.pc) ==> PastLock(y.pc)) && (MustHoldLock(y) ==> MustHoldLock(x)))
           || (LockAvailable(s, i, x.request.product) && t.locks == s.locks[x.request.product := i] && PastLock(y.pc))
           || (!PastLock(y.pc) && !MustHoldLock(y) && t.locks == map p | p in s.locks && s.locks[p] != i :: s.locks[p]))
  }

  lemma SessionLockEffect(s: State, a: Action)
    requires SessionsOk(s) && Enabled(Bound, s, a) && (a.Step? || a.Fail?)
    ensures LockEffect(s, Apply(Bound, s, a), a.i)
  {
    assert SessionOk(s.sessions[a.i]);
    if a.Fail? {
      FailLockEffect(s, a.i, a.taken);
    }
  }

  lemma FailLockEffect(s: State, i: nat, taken: Option<Conn>)
    requires Enabled(Bound, s, Fail(i, taken)) && SessionOk(s.sessions[i])
    ensures LockEffect(s, Apply(Bound, s, Fail(i, taken)), i)
  {
  }

  lemma LockEffectKeepsLocks(s: State, t: State, i: nat)
    requires LocksOk(s) && LockEffect(s, t, i)
    ensures LocksOk(t)
  {
  }

  lemma {:induction false} LocksOkStep(s: State, a: Action)
    requires SessionsOk(s) && LocksOk(s) && Enabled(Bound, s, a)
    ensures LocksOk(Apply(Bound, s, a))
  {
    if a.Step? || a.Fail? {
      SessionLockEffect(s, a);
      LockEffectKeepsLocks(s, Apply(Bound, s, a), a.i);
    }
  }

  /** The invariant without the stock: who holds which row lock does not depend on it. */
  lemma {:induction false} LocksRun(s: State, run: seq<Action>)
    requires SessionsOk(s) && LocksOk(s) && ValidRun(Bound, s, run)
    ensures SessionsOk(Run(Bound, s, run)) && LocksOk(Run(Bound, s, run))
    decreases |run|
  {
    if run != [] {
      hide SessionsOk, LocksOk, Apply;
      SessionsOkStep(Bound, s, run[0]);
      LocksOkStep(s, run[0]);
      LocksRun(Apply(Bound, s, run[0]), run[1..]);
    }
  }

  lemma CommitAdds(s: State, i: nat, c: Conn)
    requires Inv(s) && Enabled(Bound, s, Step(i, c)) && s.sessions[i].pc.Commit?
    ensures s.sessions[i].movement.Some?
    ensures var t, m := Apply(Bound, s, Step(i, c)), s.sessions[i].movement.value;
      forall p :: Stock(t.log, p) == Stock(s.log, p) + DeltaFor(m, p) >= 0
  {
    var x, t := s.sessions[i], Apply(Bound, s, Step(i, c));
    assert SessionOk(x) && Covered(s, x);
    forall p ensures Stock(t.log, p) == Stock(s.log, p) + DeltaFor(x.movement.value, p) >= 0 {
      StockSnoc(s.log, x.movement.value, p);
    }
  }

  /** A commit by session i changes the stock of its own product only, and lowers it
      only while i holds the row lock. */
  lemma {:induction false} CommitKeepsChecks(s: State, i: nat, c: Conn)
    requires Inv(s) && Enabled(Bound, s, Step(i, c)) && s.sessions[i].pc.Commit?
    ensures ChecksOk(Apply(Bound, s, Step(i, c))) && StockOk(Apply(Bound, s, Step(i, c)))
  {
    var x, t := s.sessions[i], Apply(Bound, s, Step(i, c));
    assert SessionOk(x) && Covered(s, x);
    CommitAdds(s, i, c);
    assert Decreases(x.request.kind) ==> MustHoldLock(x);
    forall j | 0 <= j < |t.sessions| ensures Covered(t, t.sessions[j]) {
      if j != i {
        var y := s.sessions[j];
        assert Covered(s, y) && t.sessions[j] == y;
      }
    }
  }

  lemma OtherStepsKeepChecks(s: State, a: Action)
    requires Inv(s) && Enabled(Bound, s, a) && !(a.Step? && s.sessions[a.i].pc.Commit?)
    ensures ChecksOk(Apply(Bound, s, a)) && StockOk(Apply(Bound, s, a))
  {
    var t := Apply(Bound, s, a);
    assert t.log == s.log;
    forall j | 0 <= j < |t.sessions| ensures Covered(t, t.sessions[j]) {
      assert Covered(s, s.sessions[j]) && SessionOk(s.sessions[j]);
    }
  }

  lemma {:induction false} InvStep(s: State, a: Action)
    requires Inv(s) && Enabled(Bound, s, a)
    ensures Inv(Apply(Bound, s, a))
  {
    hide SessionsOk, LocksOk, ChecksOk, StockOk, Apply;
    SessionsOkStep(Bound, s, a);
    LocksOkStep(s, a);
    if a.Step? && s.sessions[a.i].pc.Commit? {
      CommitKeepsChecks(s, a.i, a.conn);
    } else {
      OtherStepsKeepChecks(s, a);
    }
  }

  lemma {:induction false} InvRun(s: State, run: seq<Action>)
    requires Inv(s) && ValidRun(Bound, s, run)
    ensures Inv(Run(Bound, s, run))
    decreases |run|
  {
    if run != [] {
      InvStep(s, run[0]);
      InvRun(Apply(Bound, s, run[0]), run[1..]);
    }
  }

  /** Main safety theorem: whatever the view holds and however statements, refreshes,
      clock ticks and faults interleave, no committed stock is ever negative, and the
      locked check of a session in flight is still good. */
  lemma StockNeverNegative(s: State, pool: set<Conn>, run: seq<Action>)
    requires Initial(s, pool) && StockOk(s) && ValidRun(Bound, s, run)
    ensures StockOk(Run(Bound, s, run)) && ChecksOk(Run(Bound, s, run))
  {
    InitialInv(s, pool);
    InvRun(s, run);
  }
}
