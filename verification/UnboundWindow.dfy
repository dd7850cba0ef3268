/** Unbound sessions between their locked check and their insert: the window in which the
    row lock is already gone. */
module UnboundWindow {
  import opened Wrappers
  import opened Ledger
  import opened Protocol
  import opened Invariants
  import opened BoundSafety
  import opened UnboundTrace

  /** Session x has passed its locked check and is about to insert its decrease. */
  predicate InWindow(x: Session, p: ProductId) {
    WritesRow(x) && Decreases(x.request.kind) && x.request.product == p
  }

  function WindowOf(x: Session, p: ProductId): int {
    if InWindow(x, p) then x.request.quantity else 0
  }

  /** What the sessions in the window are about to take from the stock of p. */
  function WindowSum(xs: seq<Session>, p: ProductId): int {
    if xs == [] then 0 else WindowSum(xs[..|xs| - 1], p) + WindowOf(xs[|xs| - 1], p)
  }

  ghost predicate Fits(s: State) {
    forall p :: WindowSum(s.sessions, p) <= Stock(s.log, p)
  }

  lemma {:induction false} WindowUpdate(xs: seq<Session>, i: nat, y: Session, p: ProductId)
    requires i < |xs|
    ensures WindowSum(xs[i := y], p) == WindowSum(xs, p) - WindowOf(xs[i], p) + WindowOf(y, p)
  {
    var n := |xs| - 1;
    if i == n {
      assert xs[i := y][..n] == xs[..n];
    } else {
      assert xs[i := y][..n] == xs[..n][i := y];
      WindowUpdate(xs[..n], i, y, p);
    }
  }

  lemma {:induction false} WindowNotNegative(xs: seq<Session>, p: ProductId)
    requires forall i :: 0 <= i < |xs| ==> SessionOk(xs[i])
    ensures WindowSum(xs, p) >= 0
  {
    if xs != [] {
      WindowNotNegative(xs[..|xs| - 1], p);
      assert SessionOk(xs[|xs| - 1]);
    }
  }

  lemma {:induction false} WindowEmpty(xs: seq<Session>, p: ProductId)
    requires forall i :: 0 <= i < |xs| ==> !InWindow(xs[i], p)
    ensures WindowSum(xs, p) == 0
  {
    if xs != [] {
      WindowEmpty(xs[..|xs| - 1], p);
    }
  }

  // ---- One action ----

  /** The action is a locked check that lets a decrease of p into the window. */
  predicate Admits(s: State, a: Action, p: ProductId) {
    && a.Step? && a.i < |s.sessions| && s.sessions[a.i].pc.SumLocked?
    && InWindow(LocalStep(s, s.sessions[a.i]), p)
  }

  lemma SessionSlack(s: State, a: Action, p: ProductId)
    requires SessionsOk(s) && Enabled(Unbound, s, a) && (a.Step? || a.Fail?)
    ensures var x, t := s.sessions[a.i], Apply(Unbound, s, a);
      && |t.sessions| == |s.sessions| && t.sessions == s.sessions[a.i := t.sessions[a.i]]
      && (Admits(s, a, p) ==>
        t.log == s.log && WindowOf(x, p) == 0 && WindowOf(t.sessions[a.i], p) == x.request.quantity)
      && (!Admits(s, a, p) ==>
            Stock(t.log, p) - WindowOf(t.sessions[a.i], p) >= Stock(s.log, p) - WindowOf(x, p))
  {
    var x := s.sessions[a.i];
    assert SessionOk(x);
    if a.Step? && WritesRow(x) {
      StockSnoc(s.log, x.movement.value, p);
    }
  }

  /** What is left of the stock of p once the window is served. */
  function Slack(s: State, p: ProductId): int {
    Stock(s.log, p) - WindowSum(s.sessions, p)
  }

  /** Only an admission lowers it, and by the quantity admitted. */
  lemma SlackStep(s: State, a: Action, p: ProductId)
    requires SessionsOk(s) && Enabled(Unbound, s, a)
    ensures Admits(s, a, p) ==> Slack(Apply(Unbound, s, a), p) == Slack(s, p) - s.sessions[a.i].request.quantity
    ensures !Admits(s, a, p) ==> Slack(Apply(Unbound, s, a), p) >= Slack(s, p)
  {
    if a.Step? || a.Fail? {
      var t := Apply(Unbound, s, a);
      SessionSlack(s, a, p);
      WindowUpdate(s.sessions, a.i, t.sessions[a.i], p);
    }
  }

  // ---- From a given state ----

  /** A run in which no decrease of p passes its locked check. */
  ghost predicate NoAdmission(s: State, run: seq<Action>, p: ProductId)
    requires ValidRun(Unbound, s, run)
    decreases |run|
  {
    run == [] || (!Admits(s, run[0], p) && NoAdmission(Apply(Unbound, s, run[0]), run[1..], p))
  }

  lemma {:induction false} NoAdmissionKeepsSlack(s: State, run: seq<Action>, p: ProductId)
    requires SessionsOk(s) && ValidRun(Unbound, s, run) && NoAdmission(s, run, p)
    ensures SessionsOk(Run(Unbound, s, run)) && Slack(Run(Unbound, s, run), p) >= Slack(s, p)
    decreases |run|
  {
    if run != [] {
      hide SessionsOk, Apply;
      SessionsOkStep(Unbound, s, run[0]);
      SlackStep(s, run[0], p);
      NoAdmissionKeepsSlack(Apply(Unbound, s, run[0]), run[1..], p);
    }
  }

  /** Only inserts, of sessions in the window for p. */
  lemma {:induction false} ServeWindow(s: State, p: ProductId, c: Conn, k: nat) returns (run: seq<Action>)
    requires SessionsOk(s) && c in s.free && k <= |s.sessions|
    requires forall i :: 0 <= i < k ==> !InWindow(s.sessions[i], p)
    ensures ValidRun(Unbound, s, run) && NoAdmission(s, run, p)
    ensures Stock(Run(Unbound, s, run).log, p) == Slack(s, p)
    decreases |s.sessions| - k
  {
    run := [];
    if k == |s.sessions| {
      WindowEmpty(s.sessions, p);
    } else if !InWindow(s.sessions[k], p) {
      run := ServeWindow(s, p, c, k + 1);
    } else {
      var x, a := s.sessions[k], Step(k, c);
      assert SessionOk(x);
      var t := Apply(Unbound, s, a);
      WindowUpdate(s.sessions, k, x.(pc := Commit), p);
      StockSnoc(s.log, x.movement.value, p);
      SessionsOkStep(Unbound, s, a);
      var rest := ServeWindow(t, p, c, k + 1);
      run := [a] + rest;
      assert run[1..] == rest;
    }
  }

  /** The run makes the stock of p negative without admitting another decrease of p. */
  ghost predicate Oversells(s: State, run: seq<Action>, p: ProductId) {
    ValidRun(Unbound, s, run) && NoAdmission(s, run, p) && Stock(Run(Unbound, s, run).log, p) < 0
  }

  /** In any state with a free connection: the decreases already admitted can make the
      stock of p negative if and only if together they exceed it. */
  lemma OversellsExactly(s: State, c: Conn, p: ProductId)
    requires SessionsOk(s) && c in s.free
    ensures (exists run :: Oversells(s, run, p)) <==> WindowSum(s.sessions, p) > Stock(s.log, p)
  {
    if WindowSum(s.sessions, p) > Stock(s.log, p) {
      var run := ServeWindow(s, p, c, 0);
      assert Oversells(s, run, p);
    } else {
      forall run | ValidRun(Unbound, s, run) && NoAdmission(s, run, p) ensures !Oversells(s, run, p) {
        NoAdmissionKeepsSlack(s, run, p);
        WindowNotNegative(Run(Unbound, s, run).sessions, p);
      }
    }
  }

  // ---- Over whole runs ----

  /** A locked check that passes leaves room for the decreases already in the window. */
  ghost predicate AdmissionFits(s: State, a: Action) {
    forall p :: Admits(s, a, p) ==> WindowSum(s.sessions, p) + s.sessions[a.i].request.quantity <= Stock(s.log, p)
  }

  ghost predicate AdmissionsFit(s: State, run: seq<Action>)
    requires ValidRun(Unbound, s, run)
    decreases |run|
  {
    run == [] || (AdmissionFits(s, run[0]) && AdmissionsFit(Apply(Unbound, s, run[0]), run[1..]))
  }

  ghost predicate AlwaysFits(s: State, run: seq<Action>)
    requires ValidRun(Unbound, s, run)
    decreases |run|
  {
    Fits(s) && (run != [] ==> AlwaysFits(Apply(Unbound, s, run[0]), run[1..]))
  }

  lemma FitsStep(s: State, a: Action)
    requires SessionsOk(s) && Fits(s) && Enabled(Unbound, s, a)
    ensures AdmissionFits(s, a) <==> Fits(Apply(Unbound, s, a))
  {
    hide Enabled, SessionsOk;
    forall p
      ensures (Admits(s, a, p) ==> WindowSum(s.sessions, p) + s.sessions[a.i].request.quantity <= Stock(s.log, p)) <==>
        Slack(Apply(Unbound, s, a), p) >= 0
    {
      SlackStep(s, a, p);
    }
    assert Fits(Apply(Unbound, s, a)) <==> forall p :: Slack(Apply(Unbound, s, a), p) >= 0;
  }

  /** The window fits the stock in every state of a run if and only if every admission
      leaves room for it. */
  lemma {:induction false} FitsExactly(s: State, run: seq<Action>)
    requires SessionsOk(s) && Fits(s) && ValidRun(Unbound, s, run)
    ensures AlwaysFits(s, run) <==> AdmissionsFit(s, run)
    decreases |run|
  {
    if run != [] {
      hide SessionsOk, Apply, Fits, AdmissionFits;
      FitsStep(s, run[0]);
      SessionsOkStep(Unbound, s, run[0]);
      if AdmissionFits(s, run[0]) {
        FitsExactly(Apply(Unbound, s, run[0]), run[1..]);
      } else {
        NotAlways(Apply(Unbound, s, run[0]), run[1..]);
      }
    }
  }

  lemma NotAlways(s: State, run: seq<Action>)
    requires ValidRun(Unbound, s, run) && !Fits(s)
    ensures !AlwaysFits(s, run)
  {
  }

  lemma {:induction false} FitsAtTheEnd(s: State, run: seq<Action>)
    requires SessionsOk(s) && ValidRun(Unbound, s, run) && AlwaysFits(s, run)
    ensures SessionsOk(Run(Unbound, s, run)) && Fits(Run(Unbound, s, run))
    decreases |run|
  {
    if run != [] {
      SessionsOkStep(Unbound, s, run[0]);
      FitsAtTheEnd(Apply(Unbound, s, run[0]), run[1..]);
    }
  }

  lemma FittingIsSafe(s: State)
    requires SessionsOk(s) && Fits(s)
    ensures StockOk(s)
  {
    forall p ensures Stock(s.log, p) >= 0 {
      WindowNotNegative(s.sessions, p);
    }
  }

  lemma NoWindowYet(s: State, pool: set<Conn>)
    requires Initial(s, pool) && StockOk(s)
    ensures SessionsOk(s) && Fits(s)
  {
    forall p ensures WindowSum(s.sessions, p) == 0 {
      WindowEmpty(s.sessions, p);
    }
  }

  /** Unbound runs are safe as long as each locked check that passes leaves room for the
      decreases that passed theirs and have not inserted yet. */
  lemma SafeWhileAdmissionsFit(s: State, pool: set<Conn>, run: seq<Action>)
    requires Initial(s, pool) && StockOk(s) && ValidRun(Unbound, s, run) && AdmissionsFit(s, run)
    ensures StockOk(Run(Unbound, s, run))
  {
    NoWindowYet(s, pool);
    FitsExactly(s, run);
    FitsAtTheEnd(s, run);
    FittingIsSafe(Run(Unbound, s, run));
  }

  // ---- Without overlap there is always room ----

  /** No two decreases of one product are in the window together. */
  ghost predicate NoOverlap(s: State) {
    forall i, j, p :: (0 <= i < |s.sessions| && 0 <= j < |s.sessions| &&
                       InWindow(s.sessions[i], p) && InWindow(s.sessions[j], p)) ==> i == j
  }

  ghost predicate NeverOverlaps(s: State, run: seq<Action>)
    requires ValidRun(Unbound, s, run)
    decreases |run|
  {
    NoOverlap(s) && (run != [] ==> NeverOverlaps(Apply(Unbound, s, run[0]), run[1..]))
  }

  lemma AloneInTheWindow(s: State, a: Action)
    requires SessionsOk(s) && Enabled(Unbound, s, a) && NoOverlap(Apply(Unbound, s, a))
    ensures AdmissionFits(s, a)
  {
    forall p | Admits(s, a, p) ensures WindowSum(s.sessions, p) == 0 {
      var t := Apply(Unbound, s, a);
      assert SessionOk(s.sessions[a.i]);
      assert InWindow(t.sessions[a.i], p);
      forall j | 0 <= j < |s.sessions| ensures !InWindow(s.sessions[j], p) {
        assert j != a.i ==> t.sessions[j] == s.sessions[j];
      }
      WindowEmpty(s.sessions, p);
    }
  }

  lemma {:induction false} WithoutOverlapFits(s: State, run: seq<Action>)
    requires SessionsOk(s) && ValidRun(Unbound, s, run) && NeverOverlaps(s, run)
    ensures AdmissionsFit(s, run)
    decreases |run|
  {
    if run != [] {
      AloneInTheWindow(s, run[0]);
      SessionsOkStep(Unbound, s, run[0]);
      WithoutOverlapFits(Apply(Unbound, s, run[0]), run[1..]);
    }
  }

  predicate Active(x: Session) {
    !x.pc.ReadProduct? && !Finished(x.pc)
  }

  /** One session at a time. */
  ghost predicate OneActive(s: State) {
    forall i, j :: (0 <= i < |s.sessions| && 0 <= j < |s.sessions| &&
                    Active(s.sessions[i]) && Active(s.sessions[j])) ==> i == j
  }

  ghost predicate Serial(s: State, run: seq<Action>)
    requires ValidRun(Unbound, s, run)
    decreases |run|
  {
    OneActive(s) && (run != [] ==> Serial(Apply(Unbound, s, run[0]), run[1..]))
  }

  lemma {:induction false} SerialNeverOverlaps(s: State, run: seq<Action>)
    requires ValidRun(Unbound, s, run) && Serial(s, run)
    ensures NeverOverlaps(s, run)
    decreases |run|
  {
    assert NoOverlap(s);
    if run != [] {
      SerialNeverOverlaps(Apply(Unbound, s, run[0]), run[1..]);
    }
  }

  lemma SafeWithoutOverlap(s: State, pool: set<Conn>, run: seq<Action>)
    requires Initial(s, pool) && StockOk(s) && ValidRun(Unbound, s, run) && NeverOverlaps(s, run)
    ensures StockOk(Run(Unbound, s, run))
  {
    WithoutOverlapFits(s, run);
    SafeWhileAdmissionsFit(s, pool, run);
  }

  /** The wiring in use is safe for sessions that run one after another. */
  lemma SerialRunsAreSafe(s: State, pool: set<Conn>, run: seq<Action>)
    requires Initial(s, pool) && StockOk(s) && ValidRun(Unbound, s, run) && Serial(s, run)
    ensures StockOk(Run(Unbound, s, run))
  {
    SerialNeverOverlaps(s, run);
    SafeWithoutOverlap(s, pool, run);
  }
}
