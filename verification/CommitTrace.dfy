/** Atomicity over whole runs: the log grows by exactly the movements that were returned. */
module CommitTrace {
  import opened Wrappers
  import opened Ledger
  import opened Protocol
  import opened Invariants

  function ReturnedBy(x: Session, m: Movement): nat {
    if x.pc.Done? && x.movement == Some(m) then 1 else 0
  }

  /** How many times movement m has been returned to callers. */
  function Returned(xs: seq<Session>, m: Movement): nat {
    if xs == [] then 0 else Returned(xs[..|xs| - 1], m) + ReturnedBy(xs[|xs| - 1], m)
  }

  function Successes(xs: seq<Session>): nat {
    if xs == [] then 0
    else Successes(xs[..|xs| - 1]) + (if xs[|xs| - 1].pc.Done? then 1 else 0)
  }

  /** What the requests of the successful sessions add up to for product p. */
  function SuccessDelta(xs: seq<Session>, p: ProductId): int {
    if xs == [] then 0
    else
      var x := xs[|xs| - 1];
      SuccessDelta(xs[..|xs| - 1], p) +
      (if x.pc.Done? && x.request.product == p then Delta(x.request.kind, x.request.quantity) else 0)
  }

  ghost predicate TraceOk(s: State, log0: seq<Movement>) {
    && log0 <= s.log
    && forall m :: multiset(s.log)[m] == multiset(log0)[m] + Returned(s.sessions, m)
  }

  lemma {:induction false} ReturnedUpdate(xs: seq<Session>, i: nat, y: Session, m: Movement)
    requires i < |xs|
    ensures Returned(xs[i := y], m) + ReturnedBy(xs[i], m) == Returned(xs, m) + ReturnedBy(y, m)
  {
    var n := |xs| - 1;
    if i == n {
      assert xs[i := y][..n] == xs[..n];
    } else {
      assert xs[i := y][..n] == xs[..n][i := y];
      ReturnedUpdate(xs[..n], i, y, m);
    }
  }

  lemma {:induction false} ReturnedNothing(xs: seq<Session>, m: Movement)
    requires forall i :: 0 <= i < |xs| ==> !xs[i].pc.Done?
    ensures Returned(xs, m) == 0
  {
    if xs != [] {
      ReturnedNothing(xs[..|xs| - 1], m);
    }
  }

  /** Every action of a session either commits the movement it then returns, or leaves
      the log and the set of returned movements alone. */
  lemma {:induction false} SessionCommitsWhatItReturns(s: State, a: Action)
    requires SessionsOk(s) && Enabled(Bound, s, a) && (a.Step? || a.Fail?)
    ensures var x, t := s.sessions[a.i], Apply(Bound, s, a);
      && |t.sessions| == |s.sessions|
      && t.sessions == s.sessions[a.i := t.sessions[a.i]]
      && !x.pc.Done?
      && (|| (!t.sessions[a.i].pc.Done? && t.log == s.log)
          || (t.sessions[a.i].pc.Done? && t.sessions[a.i].movement == x.movement
              && x.movement.Some? && t.log == s.log + [x.movement.value]))
  {
    assert SessionOk(s.sessions[a.i]);
  }

  lemma TraceStep(s: State, a: Action, log0: seq<Movement>)
    requires SessionsOk(s) && TraceOk(s, log0) && Enabled(Bound, s, a)
    ensures TraceOk(Apply(Bound, s, a), log0)
  {
    if a.Step? || a.Fail? {
      var t := Apply(Bound, s, a);
      SessionCommitsWhatItReturns(s, a);
      forall m
        ensures multiset(t.log)[m] == multiset(log0)[m] + Returned(t.sessions, m)
      {
        ReturnedUpdate(s.sessions, a.i, t.sessions[a.i], m);
      }
    }
  }

  lemma {:induction false} TraceRun(s: State, run: seq<Action>, log0: seq<Movement>)
    requires SessionsOk(s) && TraceOk(s, log0) && ValidRun(Bound, s, run)
    ensures SessionsOk(Run(Bound, s, run)) && TraceOk(Run(Bound, s, run), log0)
    decreases |run|
  {
    if run != [] {
      SessionsOkStep(Bound, s, run[0]);
      TraceStep(s, run[0], log0);
      TraceRun(Apply(Bound, s, run[0]), run[1..], log0);
    }
  }

  /** Some log holds exactly the returned movements, and its stock is their requests' sum. */
  lemma {:induction false} ReturnedAsLog(xs: seq<Session>, p: ProductId) returns (log: seq<Movement>)
    requires forall i :: 0 <= i < |xs| ==> SessionOk(xs[i])
    ensures forall m :: multiset(log)[m] == Returned(xs, m)
    ensures |log| == Successes(xs) && Stock(log, p) == SuccessDelta(xs, p)
  {
    log := [];
    if xs != [] {
      var x := xs[|xs| - 1];
      assert SessionOk(x);
      log := ReturnedAsLog(xs[..|xs| - 1], p);
      if x.pc.Done? {
        StockSnoc(log, x.movement.value, p);
        log := log + [x.movement.value];
      }
    }
  }

  /** Over every Bound run, with failures at any statement, commit or rollback: the log
      only grows, by one row per session that returned, and the stock of every product
      is the initial stock plus the deltas of the successes. */
  lemma LogGrowsByTheSuccesses(s: State, pool: set<Conn>, run: seq<Action>, p: ProductId)
    requires Initial(s, pool) && ValidRun(Bound, s, run)
    ensures var t := Run(Bound, s, run);
      && s.log <= t.log
      && |t.log| == |s.log| + Successes(t.sessions)
      && (forall m :: multiset(t.log)[m] == multiset(s.log)[m] + Returned(t.sessions, m))
      && Stock(t.log, p) == Stock(s.log, p) + SuccessDelta(t.sessions, p)
  {
    forall m ensures Returned(s.sessions, m) == 0 {
      ReturnedNothing(s.sessions, m);
    }
    TraceRun(s, run, s.log);
    var t := Run(Bound, s, run);
    var added := ReturnedAsLog(t.sessions, p);
    assert multiset(t.log) == multiset(s.log + added);
    assert |t.log| == |multiset(t.log)| == |multiset(s.log + added)| == |s.log + added|;
    StockOfPermutation(t.log, s.log + added, p);
    StockConcat(s.log, added, p);
  }
}
