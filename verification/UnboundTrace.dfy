/** What the log holds after any Unbound run: the rows of the sessions that inserted, also
    of those that failed afterwards. */
module UnboundTrace {
  import opened Wrappers
  import opened Ledger
  import opened Protocol
  import opened Invariants

  /** The session may have inserted its row. */
  ghost predicate MayHaveInserted(x: Session) {
    && (x.pc.Commit? || x.pc.Done? || x.pc.Failed?)
    && x.movement.Some? && x.movement.value == BuildMovement(x.request, x.movement.value.createdAt)
    && 0 < x.request.quantity <= MAX_INTEGER && MetadataConsistent(x.request.kind, x.request.metadata)
    && (x.conn.Some? ==> x.pc.Commit?)
  }

  function DeltaOf(x: Session, p: ProductId): int {
    if x.request.product == p then Delta(x.request.kind, x.request.quantity) else 0
  }

  /** What the requests of the sessions in `who` add up to for product p. */
  function DeltaSum(xs: seq<Session>, who: set<nat>, p: ProductId): int {
    if xs == [] then 0
    else DeltaSum(xs[..|xs| - 1], who, p) + (if |xs| - 1 in who then DeltaOf(xs[|xs| - 1], p) else 0)
  }

  /** How many of them hold movement m. */
  function RowCount(xs: seq<Session>, who: set<nat>, m: Movement): nat {
    if xs == [] then 0
    else
      RowCount(xs[..|xs| - 1], who, m) +
      (if |xs| - 1 in who && xs[|xs| - 1].movement == Some(m) then 1 else 0)
  }

  ghost predicate Writers(s: State, who: set<nat>) {
    && (forall i: nat :: i in who ==> i < |s.sessions| && MayHaveInserted(s.sessions[i]))
    && (forall i: nat :: i < |s.sessions| && (s.sessions[i].pc.Commit? || s.sessions[i].pc.Done?) ==> i in who)
  }

  ghost predicate LogHolds(s: State, log0: seq<Movement>, who: set<nat>) {
    && log0 <= s.log && |s.log| == |log0| + |who|
    && (forall m :: multiset(s.log)[m] == multiset(log0)[m] + RowCount(s.sessions, who, m))
    && (forall p :: Stock(s.log, p) == Stock(log0, p) + DeltaSum(s.sessions, who, p))
  }

  ghost predicate Traced(s: State, log0: seq<Movement>, who: set<nat>) {
    Writers(s, who) && LogHolds(s, log0, who)
  }

  lemma {:induction false} SameSums(xs: seq<Session>, ys: seq<Session>, who: set<nat>, p: ProductId, m: Movement)
    requires |xs| == |ys|
    requires forall i: nat :: i < |xs| && i in who ==>
      ys[i].request == xs[i].request && ys[i].movement == xs[i].movement
    ensures DeltaSum(ys, who, p) == DeltaSum(xs, who, p) && RowCount(ys, who, m) == RowCount(xs, who, m)
  {
    if xs != [] {
      SameSums(xs[..|xs| - 1], ys[..|ys| - 1], who, p, m);
    }
  }

  lemma {:induction false} OneMoreWriter(xs: seq<Session>, who: set<nat>, i: nat, p: ProductId, m: Movement)
    requires i < |xs| && i !in who
    ensures DeltaSum(xs, who + {i}, p) == DeltaSum(xs, who, p) + DeltaOf(xs[i], p)
    ensures RowCount(xs, who + {i}, m) == RowCount(xs, who, m) + (if xs[i].movement == Some(m) then 1 else 0)
  {
    var n := |xs| - 1;
    if i < n {
      OneMoreWriter(xs[..n], who, i, p, m);
    } else {
      NotAWriter(xs[..n], who, i, p, m);
    }
  }

  lemma {:induction false} NotAWriter(xs: seq<Session>, who: set<nat>, i: nat, p: ProductId, m: Movement)
    requires |xs| <= i
    ensures DeltaSum(xs, who + {i}, p) == DeltaSum(xs, who, p) && RowCount(xs, who + {i}, m) == RowCount(xs, who, m)
  {
    if xs != [] {
      NotAWriter(xs[..|xs| - 1], who, i, p, m);
    }
  }

  /** The session's next step is an insert that the column accepts. */
  predicate WritesRow(x: Session) {
    x.pc.Insert? && x.movement.Some? && x.movement.value.quantity <= MAX_INTEGER
  }

  /** What a session's action does to the log: write its row or leave it alone. */
  ghost predicate Effect(s: State, t: State, i: nat, writes: bool) {
    && i < |s.sessions| == |t.sessions| && t.sessions == s.sessions[i := t.sessions[i]]
    && var x, y := s.sessions[i], t.sessions[i];
       && y.request == x.request
       && if writes then
            && !MayHaveInserted(x) && MayHaveInserted(y) && y == x.(pc := Commit)
            && t.log == s.log + [x.movement.value]
          else
            && t.log == s.log && (y.pc.Commit? || y.pc.Done? ==> x.pc.Commit?)
            && (MayHaveInserted(x) ==> MayHaveInserted(y) && y.movement == x.movement)
  }

  /** A row is written by an insert and by nothing else, and is never taken back. */
  lemma SessionWrites(s: State, a: Action)
    requires SessionsOk(s) && Enabled(Unbound, s, a) && (a.Step? || a.Fail?)
    ensures Effect(s, Apply(Unbound, s, a), a.i, a.Step? && WritesRow(s.sessions[a.i]))
  {
    assert SessionOk(s.sessions[a.i]);
  }

  lemma RowAdded(s: State, t: State, i: nat, log0: seq<Movement>, who: set<nat>)
    requires i < |s.sessions| && i !in who && LogHolds(s, log0, who)
    requires s.sessions[i].movement.Some? &&
      s.sessions[i].movement.value == BuildMovement(s.sessions[i].request, s.sessions[i].movement.value.createdAt)
    requires t.sessions == s.sessions[i := s.sessions[i].(pc := Commit)] &&
      t.log == s.log + [s.sessions[i].movement.value]
    ensures LogHolds(t, log0, who + {i})
  {
    var more, row := who + {i}, s.sessions[i].movement.value;
    forall p ensures Stock(t.log, p) == Stock(log0, p) + DeltaSum(t.sessions, more, p) {
      OneMoreWriter(s.sessions, who, i, p, row);
      SameSums(s.sessions, t.sessions, more, p, row);
      StockSnoc(s.log, row, p);
    }
    forall m ensures multiset(t.log)[m] == multiset(log0)[m] + RowCount(t.sessions, more, m) {
      OneMoreWriter(s.sessions, who, i, row.product, m);
      SameSums(s.sessions, t.sessions, more, row.product, m);
    }
  }

  lemma NoRowAdded(s: State, t: State, log0: seq<Movement>, who: set<nat>)
    requires LogHolds(s, log0, who) && t.log == s.log && |t.sessions| == |s.sessions|
    requires forall i: nat :: i < |s.sessions| && i in who ==>
      t.sessions[i].request == s.sessions[i].request && t.sessions[i].movement == s.sessions[i].movement
    ensures LogHolds(t, log0, who)
  {
    forall p ensures Stock(t.log, p) == Stock(log0, p) + DeltaSum(t.sessions, who, p) {
      SameSums(s.sessions, t.sessions, who, p, Movement(p, IN, 1, {}, 0));
    }
    forall m ensures multiset(t.log)[m] == multiset(log0)[m] + RowCount(t.sessions, who, m) {
      SameSums(s.sessions, t.sessions, who, 0, m);
    }
  }

  /** The sessions that have inserted after one more action. */
  function Inserted(s: State, a: Action, who: set<nat>): set<nat>
    requires Enabled(Unbound, s, a)
  {
    if a.Step? && WritesRow(s.sessions[a.i]) then who + {a.i} else who
  }

  lemma EffectIsTraced(s: State, t: State, i: nat, writes: bool, log0: seq<Movement>, who: set<nat>)
    requires Traced(s, log0, who) && Effect(s, t, i, writes)
    ensures Traced(t, log0, if writes then who + {i} else who)
  {
    hide LogHolds;
    if writes {
      RowAdded(s, t, i, log0, who);
    } else {
      NoRowAdded(s, t, log0, who);
    }
  }

  lemma TracedStep(s: State, a: Action, log0: seq<Movement>, who: set<nat>)
    requires SessionsOk(s) && Traced(s, log0, who) && Enabled(Unbound, s, a)
    ensures Traced(Apply(Unbound, s, a), log0, Inserted(s, a, who))
  {
    if a.Step? || a.Fail? {
      hide Apply, Enabled, Traced, Effect, SessionsOk;
      SessionWrites(s, a);
      EffectIsTraced(s, Apply(Unbound, s, a), a.i, a.Step? && WritesRow(s.sessions[a.i]), log0, who);
    }
  }

  lemma {:induction false} TracedRun(s: State, run: seq<Action>, log0: seq<Movement>, who: set<nat>)
      returns (all: set<nat>)
    requires SessionsOk(s) && Traced(s, log0, who) && ValidRun(Unbound, s, run)
    ensures Traced(Run(Unbound, s, run), log0, all)
    decreases |run|
  {
    all := who;
    if run != [] {
      hide Traced, SessionsOk, Apply;
      SessionsOkStep(Unbound, s, run[0]);
      TracedStep(s, run[0], log0, who);
      all := TracedRun(Apply(Unbound, s, run[0]), run[1..], log0, Inserted(s, run[0], who));
    }
  }

  lemma {:induction false} NobodyYet(xs: seq<Session>, p: ProductId, m: Movement)
    ensures DeltaSum(xs, {}, p) == 0 && RowCount(xs, {}, m) == 0
  {
    if xs != [] {
      NobodyYet(xs[..|xs| - 1], p, m);
    }
  }

  lemma NothingTraced(s: State, pool: set<Conn>)
    requires Initial(s, pool)
    ensures Traced(s, s.log, {})
  {
    forall p ensures DeltaSum(s.sessions, {}, p) == 0 {
      NobodyYet(s.sessions, p, Movement(p, IN, 1, {}, 0));
    }
    forall m ensures RowCount(s.sessions, {}, m) == 0 {
      NobodyYet(s.sessions, 0, m);
    }
  }

  /** Over every Unbound run, with failures anywhere: the log only grows, by exactly one row
      for each of a set of sessions; every session that returned or is about to commit is
      among them, and so may be some that failed; stock is initial stock plus their deltas. */
  lemma LogGrowsByTheInserts(s: State, pool: set<Conn>, run: seq<Action>) returns (who: set<nat>)
    requires Initial(s, pool) && ValidRun(Unbound, s, run)
    ensures var t := Run(Unbound, s, run);
      && s.log <= t.log && |t.log| == |s.log| + |who|
      && (forall i: nat :: i in who ==>
        i < |t.sessions| && (t.sessions[i].pc.Commit? || t.sessions[i].pc.Done? || t.sessions[i].pc.Failed?))
      && (forall i: nat :: i < |t.sessions| && (t.sessions[i].pc.Commit? || t.sessions[i].pc.Done?) ==> i in who)
      && (forall m :: multiset(t.log)[m] == multiset(s.log)[m] + RowCount(t.sessions, who, m))
      && (forall p :: Stock(t.log, p) == Stock(s.log, p) + DeltaSum(t.sessions, who, p))
  {
    NothingTraced(s, pool);
    who := TracedRun(s, run, s.log, {});
  }

  /** Atomicity is lost: a session whose commit fails has already left its row. */
  lemma {:induction false} FailedSessionLeavesItsRow(s: State, i: nat, c: Conn)
    requires SessionsOk(s) && i < |s.sessions| && s.sessions[i].pc.Insert? && c in s.free
    requires s.sessions[i].request.quantity <= MAX_INTEGER
    ensures ValidRun(Unbound, s, [Step(i, c), Fail(i, None)])
    ensures var t := Run(Unbound, s, [Step(i, c), Fail(i, None)]);
      && |t.sessions| == |s.sessions| && t.sessions[i].pc.Failed?
      && t.log == s.log + [s.sessions[i].movement.value]
  {
    assert SessionOk(s.sessions[i]);
    RunSnoc(Unbound, s, [], Step(i, c));
    assert [] + [Step(i, c)] == [Step(i, c)];
    RunSnoc(Unbound, s, [Step(i, c)], Fail(i, None));
    assert [Step(i, c)] + [Fail(i, None)] == [Step(i, c), Fail(i, None)];
  }
}
