/** When a Bound run commits in an order that keeps the stock of every past date
    non-negative: exactly when no delivery overtakes an earlier-dated decrease. */
module CommitOrder {
  import opened Wrappers
  import opened Ledger
  import opened Protocol
  import opened Invariants
  import opened BoundSafety
  import opened MaterializedView
  import opened History

  /** x is dated no later than y is, if x adds to the product that y takes from. */
  predicate PaidInTime(x: Movement, y: Movement) {
    x.product == y.product && !Decreases(x.kind) && Decreases(y.kind) ==> x.createdAt <= y.createdAt
  }

  /** The action commits a delivery while an earlier-dated decrease of its product is in
      flight in one of the sessions `those`. */
  ghost predicate Overtakes(s: State, a: Action, those: set<nat>) {
    && a.Step? && a.i < |s.sessions| && s.sessions[a.i].pc.Commit? && s.sessions[a.i].movement.Some?
    && exists j: nat :: j in those && j < |s.sessions| && InFlight(s.sessions[j]) &&
         !PaidInTime(s.sessions[a.i].movement.value, s.sessions[j].movement.value)
  }

  ghost predicate NeverOvertakes(s: State, run: seq<Action>, those: set<nat>)
    requires ValidRun(Bound, s, run)
    decreases |run|
  {
    run == [] || (!Overtakes(s, run[0], those) && NeverOvertakes(Apply(Bound, s, run[0]), run[1..], those))
  }

  /** The sessions that have returned a movement. */
  function Returners(s: State): set<nat> {
    set i: nat | i < |s.sessions| && s.sessions[i].pc.Done?
  }

  ghost predicate InOrder(log: seq<Movement>) {
    forall p :: IncreasesFirst(log, p)
  }

  /** The dates of a state, as far as the sessions `those` are concerned. */
  ghost predicate DatesOk(s: State, those: set<nat>) {
    && Positive(s.log) && InOrder(s.log)
    && (forall k :: 0 <= k < |s.log| ==> s.log[k].createdAt <= s.now)
    && (forall i: nat :: i < |s.sessions| && InFlight(s.sessions[i]) ==>
          s.sessions[i].movement.value.createdAt <= s.now && s.sessions[i].movement.value.quantity > 0)
    && (forall i: nat, k: nat :: i in those && i < |s.sessions| && InFlight(s.sessions[i]) && k < |s.log| ==>
          PaidInTime(s.log[k], s.sessions[i].movement.value))
  }

  /** What a session's action does to the dates: nothing, a new movement dated now, or a
      commit of the movement that was in flight. */
  ghost predicate DateEffect(s: State, t: State, i: nat, commits: bool) {
    && i < |s.sessions| == |t.sessions| && t.now == s.now && t.sessions == s.sessions[i := t.sessions[i]]
    && var x, y := s.sessions[i], t.sessions[i];
       if commits then
         InFlight(x) && y.pc.Done? && t.log == s.log + [x.movement.value]
       else
         && t.log == s.log && (y.pc.Done? ==> x.pc.Done?)
         && (|| !InFlight(y)
             || (InFlight(x) && y.movement == x.movement)
             || (x.pc.Build? && y.movement == Some(BuildMovement(x.request, s.now)) && x.request.quantity > 0))
  }

  predicate Commits(s: State, a: Action) {
    a.Step? && a.i < |s.sessions| && s.sessions[a.i].pc.Commit?
  }

  lemma SessionDates(s: State, a: Action)
    requires SessionsOk(s) && Enabled(Bound, s, a) && (a.Step? || a.Fail?)
    ensures DateEffect(s, Apply(Bound, s, a), a.i, Commits(s, a))
  {
    assert SessionOk(s.sessions[a.i]);
  }

  lemma CommitKeepsOrder(log: seq<Movement>, m: Movement)
    requires InOrder(log) && forall k :: 0 <= k < |log| ==> PaidInTime(log[k], m)
    ensures InOrder(log + [m])
  {
    var longer := log + [m];
    forall p, k: nat, l: nat | Pair(longer, p, k, l) ensures longer[k].createdAt <= longer[l].createdAt {
      if l < |log| {
        assert IncreasesFirst(log, p) && Pair(log, p, k, l);
      } else {
        assert PaidInTime(log[k], m);
      }
    }
  }

  lemma DateEffectKeepsDates(s: State, t: State, i: nat, commits: bool, those: set<nat>)
    requires DatesOk(s, those) && DateEffect(s, t, i, commits)
    requires commits ==> i in those && forall j: nat :: j in those && j < |s.sessions| && InFlight(s.sessions[j]) ==>
      PaidInTime(s.sessions[i].movement.value, s.sessions[j].movement.value)
    ensures DatesOk(t, those)
  {
    if commits {
      CommitKeepsOrder(s.log, s.sessions[i].movement.value);
    }
  }

  lemma DatesStep(s: State, a: Action, those: set<nat>)
    requires SessionsOk(s) && DatesOk(s, those) && Enabled(Bound, s, a) && !Overtakes(s, a, those)
    requires Commits(s, a) ==> a.i in those
    ensures DatesOk(Apply(Bound, s, a), those)
  {
    if a.Step? || a.Fail? {
      SessionDates(s, a);
      assert SessionOk(s.sessions[a.i]);
      hide Apply, Enabled, SessionsOk;
      DateEffectKeepsDates(s, Apply(Bound, s, a), a.i, Commits(s, a), those);
    }
  }

  lemma {:induction false} DoneStays(s: State, run: seq<Action>, i: nat)
    requires ValidRun(Bound, s, run) && i < |s.sessions| && s.sessions[i].pc.Done?
    ensures |Run(Bound, s, run).sessions| == |s.sessions| && Run(Bound, s, run).sessions[i] == s.sessions[i]
    decreases |run|
  {
    if run != [] {
      var t := Apply(Bound, s, run[0]);
      assert |t.sessions| == |s.sessions| && t.sessions[i] == s.sessions[i];
      DoneStays(t, run[1..], i);
    }
  }

  lemma {:induction false} DatesRun(s: State, run: seq<Action>, those: set<nat>)
    requires SessionsOk(s) && DatesOk(s, those) && ValidRun(Bound, s, run)
    requires those == Returners(Run(Bound, s, run)) && NeverOvertakes(s, run, those)
    ensures DatesOk(Run(Bound, s, run), those)
    decreases |run|
  {
    if run != [] {
      var a := run[0];
      var t := Apply(Bound, s, a);
      if Commits(s, a) {
        SessionDates(s, a);
        DoneStays(t, run[1..], a.i);
      }
      hide SessionsOk, DatesOk, Overtakes, Apply;
      SessionsOkStep(Bound, s, a);
      DatesStep(s, a, those);
      DatesRun(t, run[1..], those);
    }
  }

  // ---- Conversely, overtaking shows in the log ----

  lemma {:induction false} LogGrowsInRun(s: State, run: seq<Action>)
    requires ValidRun(Bound, s, run)
    ensures s.log <= Run(Bound, s, run).log
    decreases |run|
  {
    if run != [] {
      LogOnlyGrows(Bound, s, run[0]);
      LogGrowsInRun(Apply(Bound, s, run[0]), run[1..]);
    }
  }

  /** A session in flight that returns has appended its movement. */
  lemma {:induction false} FlightLands(s: State, run: seq<Action>, j: nat) returns (n: nat)
    requires SessionsOk(s) && ValidRun(Bound, s, run) && j < |s.sessions| && InFlight(s.sessions[j])
    requires j in Returners(Run(Bound, s, run))
    ensures |s.log| <= n < |Run(Bound, s, run).log| && Run(Bound, s, run).log[n] == s.sessions[j].movement.value
    decreases |run|
  {
    var a := run[0];
    var t := Apply(Bound, s, a);
    SessionsOkStep(Bound, s, a);
    LogOnlyGrows(Bound, s, a);
    if (a.Step? || a.Fail?) && a.i == j {
      StillFlies(s, a, run[1..]);
      if Commits(s, a) {
        LogGrowsInRun(t, run[1..]);
        return |s.log|;
      }
    }
    n := FlightLands(t, run[1..], j);
  }

  lemma {:induction false} FailedStays(s: State, run: seq<Action>, i: nat)
    requires ValidRun(Bound, s, run) && i < |s.sessions|
    requires s.sessions[i].pc.Failed? || s.sessions[i].pc.Rollback?
    ensures i !in Returners(Run(Bound, s, run))
    decreases |run|
  {
    if run != [] {
      var t := Apply(Bound, s, run[0]);
      assert |t.sessions| == |s.sessions| && (t.sessions[i].pc.Failed? || t.sessions[i].pc.Rollback?);
      FailedStays(t, run[1..], i);
    }
  }

  /** A session that will return is still in flight with the same movement, unless it commits. */
  lemma StillFlies(s: State, a: Action, rest: seq<Action>)
    requires SessionsOk(s) && Enabled(Bound, s, a) && (a.Step? || a.Fail?) && InFlight(s.sessions[a.i])
    requires ValidRun(Bound, Apply(Bound, s, a), rest) && a.i in Returners(Run(Bound, Apply(Bound, s, a), rest))
    ensures var t := Apply(Bound, s, a);
      if Commits(s, a) then t.log == s.log + [s.sessions[a.i].movement.value]
      else a.i < |t.sessions| && InFlight(t.sessions[a.i]) && t.sessions[a.i].movement == s.sessions[a.i].movement
  {
    var t := Apply(Bound, s, a);
    assert SessionOk(s.sessions[a.i]);
    if t.sessions[a.i].pc.Failed? {
      FailedStays(t, rest, a.i);
    }
  }

  lemma OvertakingShows(s: State, run: seq<Action>)
    requires SessionsOk(s) && ValidRun(Bound, s, run) && run != []
    requires Overtakes(s, run[0], Returners(Run(Bound, s, run)))
    ensures !InOrder(Run(Bound, s, run).log)
  {
    var a, end := run[0], Run(Bound, s, run);
    var t := Apply(Bound, s, a);
    var x := s.sessions[a.i].movement.value;
    var j: nat :| j in Returners(end) && j < |s.sessions| && InFlight(s.sessions[j]) &&
      !PaidInTime(x, s.sessions[j].movement.value);
    var y := s.sessions[j].movement.value;
    SessionDates(s, a);
    SessionsOkStep(Bound, s, a);
    assert t.log == s.log + [x] && t.sessions[j] == s.sessions[j];
    var n := FlightLands(t, run[1..], j);
    LogGrowsInRun(t, run[1..]);
    assert end.log[|s.log|] == x && end.log[n] == y;
    assert Pair(end.log, x.product, |s.log|, n) && !IncreasesFirst(end.log, x.product);
  }

  lemma {:induction false} OrderMeansNoOvertaking(s: State, run: seq<Action>)
    requires SessionsOk(s) && ValidRun(Bound, s, run) && InOrder(Run(Bound, s, run).log)
    ensures NeverOvertakes(s, run, Returners(Run(Bound, s, run)))
    decreases |run|
  {
    if run != [] {
      if Overtakes(s, run[0], Returners(Run(Bound, s, run))) {
        OvertakingShows(s, run);
      }
      SessionsOkStep(Bound, s, run[0]);
      OrderMeansNoOvertaking(Apply(Bound, s, run[0]), run[1..]);
    }
  }

  // ---- The theorems ----

  /** A start whose log is in order and not dated in the future. */
  ghost predicate GoodStart(s: State, pool: set<Conn>) {
    && Initial(s, pool) && PrefixesOk(s.log) && Positive(s.log) && InOrder(s.log)
    && forall k :: 0 <= k < |s.log| ==> s.log[k].createdAt <= s.now
  }

  /** Over every Bound run: the log ends with no decrease dated before an increase of its
      product committed before it, if and only if no commit of an increase overtakes an
      earlier-dated decrease of its product that is in flight and commits later. */
  lemma {:induction false} OrderedRunExactly(s: State, pool: set<Conn>, run: seq<Action>)
    requires GoodStart(s, pool) && ValidRun(Bound, s, run)
    ensures InOrder(Run(Bound, s, run).log) <==> NeverOvertakes(s, run, Returners(Run(Bound, s, run)))
  {
    if NeverOvertakes(s, run, Returners(Run(Bound, s, run))) {
      DatesRun(s, run, Returners(Run(Bound, s, run)));
    }
    if InOrder(Run(Bound, s, run).log) {
      OrderMeansNoOvertaking(s, run);
    }
  }

  lemma PrefixesOfRun(s: State, pool: set<Conn>, run: seq<Action>)
    requires Initial(s, pool) && PrefixesOk(s.log) && ValidRun(Bound, s, run)
    ensures PrefixesOk(Run(Bound, s, run).log)
  {
    forall p ensures Stock(s.log, p) >= 0 {
      assert s.log[..|s.log|] == s.log;
    }
    InitialInv(s, pool);
    PrefixesRun(s, run);
  }

  /** Such a run has non-negative stock at every date. */
  lemma HistoricalStockNeverNegative(s: State, pool: set<Conn>, run: seq<Action>, p: ProductId, d: int)
    requires GoodStart(s, pool) && ValidRun(Bound, s, run)
    requires NeverOvertakes(s, run, Returners(Run(Bound, s, run)))
    ensures StockAt(Run(Bound, s, run).log, p, d) >= 0
  {
    PrefixesOfRun(s, pool, run);
    DatesRun(s, run, Returners(Run(Bound, s, run)));
    OrderExactly(Run(Bound, s, run).log, p);
  }

  lemma {:induction false} FewerOvertaken(s: State, run: seq<Action>, those: set<nat>, all: set<nat>)
    requires ValidRun(Bound, s, run) && those <= all && NeverOvertakes(s, run, all)
    ensures NeverOvertakes(s, run, those)
    decreases |run|
  {
    if run != [] {
      FewerOvertaken(Apply(Bound, s, run[0]), run[1..], those, all);
    }
  }

  /** So has a run in which each increase commits while no earlier-dated decrease of its
      product is in flight, whatever becomes of the sessions later. */
  lemma InTurnIsSafe(s: State, pool: set<Conn>, run: seq<Action>, p: ProductId, d: int)
    requires GoodStart(s, pool) && ValidRun(Bound, s, run) && NeverOvertakes(s, run, Naturals(|s.sessions|))
    ensures StockAt(Run(Bound, s, run).log, p, d) >= 0
  {
    RequestsStay(Bound, s, run);
    FewerOvertaken(s, run, Returners(Run(Bound, s, run)), Naturals(|s.sessions|));
    HistoricalStockNeverNegative(s, pool, run, p, d);
  }
}
