/** What every step keeps under either wiring: the shape of each session and the
    partition of the pool into free and held connections. */
module Invariants {
  import opened Wrappers
  import opened Ledger
  import opened Protocol

  ghost predicate SessionOk(x: Session) {
    && (InTransaction(x.pc) ==> x.conn.Some?)
    && (x.conn.Some? ==> InTransaction(x.pc) || x.pc.Failed?)
    && (x.pc.Enter? || InTransaction(x.pc) || x.pc.Done? || x.conn.Some? ==>
          && x.movement.Some?
          && x.movement.value == BuildMovement(x.request, x.movement.value.createdAt)
          && x.request.quantity > 0
          && MetadataConsistent(x.request.kind, x.request.metadata))
    && (x.pc.ReadView? || x.pc.ReadDirect? || x.pc.Lock? || x.pc.SumLocked? ==> Decreases(x.request.kind))
    && (x.pc.Commit? || x.pc.Done? ==> x.request.quantity <= MAX_INTEGER)
  }

  ghost predicate SessionsOk(s: State) {
    forall i :: 0 <= i < |s.sessions| ==> SessionOk(s.sessions[i])
  }

  ghost predicate Holds(s: State, i: int, c: Conn) {
    0 <= i < |s.sessions| && s.sessions[i].conn == Some(c)
  }

  ghost predicate RefresherHolds(s: State, c: Conn) {
    s.refresher.Refreshing? && s.refresher.conn == c
  }

  /** Every connection of the pool is free, or held by exactly one session or by the refresh. */
  ghost predicate PoolOk(s: State, pool: set<Conn>) {
    && s.free <= pool
    && (forall i, c :: Holds(s, i, c) ==> c in pool && c !in s.free && !RefresherHolds(s, c))
    && (forall i, j, c :: Holds(s, i, c) && Holds(s, j, c) ==> i == j)
    && (forall c :: RefresherHolds(s, c) ==> c in pool && c !in s.free)
    && (forall c :: c in pool ==> c in s.free || RefresherHolds(s, c) || exists i :: Holds(s, i, c))
  }

  /** A session answers the request it was started with. */
  ghost predicate SameRequests(s: State, t: State) {
    && |t.sessions| == |s.sessions|
    && forall i :: 0 <= i < |s.sessions| ==> t.sessions[i].request == s.sessions[i].request
  }

  lemma RequestsStayStep(w: Wiring, s: State, a: Action)
    requires Enabled(w, s, a)
    ensures SameRequests(s, Apply(w, s, a))
  {
  }

  lemma {:induction false} RequestsStay(w: Wiring, s: State, run: seq<Action>)
    requires ValidRun(w, s, run)
    ensures SameRequests(s, Run(w, s, run))
    decreases |run|
  {
    if run != [] {
      RequestsStayStep(w, s, run[0]);
      RequestsStay(w, Apply(w, s, run[0]), run[1..]);
    }
  }

  lemma StepKeepsSession(w: Wiring, s: State, i: nat, c: Conn)
    requires Enabled(w, s, Step(i, c)) && SessionOk(s.sessions[i])
    ensures var t := Apply(w, s, Step(i, c));
      |t.sessions| == |s.sessions| && t.sessions == s.sessions[i := t.sessions[i]] && SessionOk(t.sessions[i])
  {
  }

  lemma FailKeepsSession(w: Wiring, s: State, i: nat, taken: Option<Conn>)
    requires Enabled(w, s, Fail(i, taken)) && SessionOk(s.sessions[i])
    ensures var t := Apply(w, s, Fail(i, taken));
      |t.sessions| == |s.sessions| && t.sessions == s.sessions[i := t.sessions[i]] && SessionOk(t.sessions[i])
  {
  }

  lemma SessionsOkStep(w: Wiring, s: State, a: Action)
    requires SessionsOk(s) && Enabled(w, s, a)
    ensures SessionsOk(Apply(w, s, a))
  {
    hide SessionOk;
    match a
    case Step(i, c) => StepKeepsSession(w, s, i, c);
    case Fail(i, taken) => FailKeepsSession(w, s, i, taken);
    case _ =>
  }

  /** What one action may do to the pool: nothing, take a free connection for a
      session, or give a session's connection back. */
  ghost predicate PoolEffect(s: State, t: State, i: nat, c: Conn) {
    && i < |s.sessions| == |t.sessions|
    && t.refresher == s.refresher
    && (forall j :: 0 <= j < |s.sessions| && j != i ==> t.sessions[j] == s.sessions[j])
    && var before, after := s.sessions[i].conn, t.sessions[i].conn;
       || (after == before && t.free == s.free)
       || (before.None? && after == Some(c) && c in s.free && t.free == s.free - {c})
       || (after.None? && t.free == s.free + ConnSet(before))
  }

  function ConnOf(a: Action): Conn
    requires a.Step? || a.Fail?
  {
    if a.Step? then a.conn else if a.taken.Some? then a.taken.value else 0
  }

  lemma SessionPoolEffect(w: Wiring, s: State, a: Action)
    requires SessionsOk(s) && Enabled(w, s, a) && (a.Step? || a.Fail?)
    ensures PoolEffect(s, Apply(w, s, a), a.i, ConnOf(a))
  {
    assert SessionOk(s.sessions[a.i]);
  }

  lemma PoolEffectKeepsPool(s: State, t: State, i: nat, c: Conn, pool: set<Conn>)
    requires PoolOk(s, pool) && PoolEffect(s, t, i, c)
    ensures PoolOk(t, pool)
  {
    var before := s.sessions[i].conn;
    assert before.Some? ==> Holds(s, i, before.value);
    forall j, d | Holds(t, j, d) ensures Holds(s, j, d) || (j == i && d == c && c in s.free) {}
    forall d | d in pool
      ensures d in t.free || RefresherHolds(t, d) || exists j :: Holds(t, j, d)
    {
      if exists j :: Holds(s, j, d) {
        var j :| Holds(s, j, d);
        assert Holds(t, j, d) || d in t.free;
      } else if d == c {
        assert d in t.free || Holds(t, i, d) || RefresherHolds(t, d);
      }
    }
  }

  lemma PoolOkStep(w: Wiring, s: State, a: Action, pool: set<Conn>)
    requires SessionsOk(s) && PoolOk(s, pool) && Enabled(w, s, a)
    ensures PoolOk(Apply(w, s, a), pool)
  {
    var t := Apply(w, s, a);
    if a.Step? || a.Fail? {
      SessionPoolEffect(w, s, a);
      PoolEffectKeepsPool(s, t, a.i, ConnOf(a), pool);
    } else {
      assert t.sessions == s.sessions;
      forall j, c ensures Holds(t, j, c) == Holds(s, j, c) {}
    }
  }

  /** In every reachable state, under either wiring and with any faults, the pool is
      partitioned into free connections and connections with one holder each. */
  lemma {:induction false} PoolIsConserved(w: Wiring, s: State, run: seq<Action>, pool: set<Conn>)
    requires SessionsOk(s) && PoolOk(s, pool) && ValidRun(w, s, run)
    ensures SessionsOk(Run(w, s, run)) && PoolOk(Run(w, s, run), pool)
    decreases |run|
  {
    if run != [] {
      SessionsOkStep(w, s, run[0]);
      PoolOkStep(w, s, run[0], pool);
      PoolIsConserved(w, Apply(w, s, run[0]), run[1..], pool);
    }
  }
}
