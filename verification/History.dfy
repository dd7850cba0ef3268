/** Stock at a past date: `created_at` is fixed before the lock, so commit order and
    date order may differ. */
module History {
  import opened Wrappers
  import opened Ledger
  import opened Protocol
  import opened Invariants
  import opened BoundSafety
  import opened SoloRun

  // ---- The date query on a single log ----

  ghost predicate OrderedByDate(log: seq<Movement>) {
    forall i, j :: 0 <= i <= j < |log| ==> log[i].createdAt <= log[j].createdAt
  }

  /** Rows with d1 < created_at <= d2, in log order. */
  function Within(log: seq<Movement>, d1: int, d2: int): seq<Movement> {
    if log == [] then []
    else Within(log[..|log| - 1], d1, d2) +
         (if d1 < log[|log| - 1].createdAt <= d2 then [log[|log| - 1]] else [])
  }

  /** When commit order agrees with date order, the rows up to a date are a prefix of the log. */
  lemma {:induction false} UpToIsPrefix(log: seq<Movement>, d: int) returns (n: nat)
    requires OrderedByDate(log)
    ensures n <= |log| && UpTo(log, d) == log[..n]
    ensures forall i :: 0 <= i < |log| ==> (i < n <==> log[i].createdAt <= d)
  {
    n := 0;
    if log != [] {
      var k := |log| - 1;
      n := UpToIsPrefix(log[..k], d);
      if log[k].createdAt <= d {
        assert forall i :: 0 <= i < k ==> log[i].createdAt <= d;
        assert n == k;
        assert log[..k] + [log[k]] == log == log[..|log|];
        return |log|;
      } else {
        assert log[..k][..n] == log[..n];
      }
    }
  }

  /** For every log, the stock moves between two dates by the signed sum of the rows dated between. */
  lemma {:induction false} StockAtDifference(log: seq<Movement>, p: ProductId, d1: int, d2: int)
    requires d1 <= d2
    ensures StockAt(log, p, d2) - StockAt(log, p, d1) == Stock(Within(log, d1, d2), p)
  {
    if log != [] {
      var k := |log| - 1;
      var m := log[k];
      StockAtDifference(log[..k], p, d1, d2);
      StockSnoc(UpTo(log[..k], d1), m, p);
      StockSnoc(UpTo(log[..k], d2), m, p);
      StockSnoc(Within(log[..k], d1, d2), m, p);
      assert UpTo(log[..k], d1) + [] == UpTo(log[..k], d1);
      assert UpTo(log[..k], d2) + [] == UpTo(log[..k], d2);
      assert Within(log[..k], d1, d2) + [] == Within(log[..k], d1, d2);
    }
  }

  // ---- Every stage of a Bound log was non-negative ----

  ghost predicate PrefixesOk(log: seq<Movement>) {
    forall n, p :: 0 <= n <= |log| ==> Stock(log[..n], p) >= 0
  }

  lemma {:induction false} PrefixesRun(s: State, run: seq<Action>)
    requires Inv(s) && PrefixesOk(s.log) && ValidRun(Bound, s, run)
    ensures PrefixesOk(Run(Bound, s, run).log)
    decreases |run|
  {
    if run != [] {
      var t := Apply(Bound, s, run[0]);
      InvStep(s, run[0]);
      assert t.log == s.log || (|t.log| == |s.log| + 1 && t.log[..|s.log|] == s.log);
      forall n, p | 0 <= n <= |t.log| ensures Stock(t.log[..n], p) >= 0 {
        if n == |t.log| {
          assert t.log[..n] == t.log;
        } else {
          assert t.log[..n] == s.log[..n];
        }
      }
      PrefixesRun(t, run[1..]);
    }
  }

  // ---- Which order of commits keeps every past date non-negative ----

  ghost predicate Positive(log: seq<Movement>) {
    forall k :: 0 <= k < |log| ==> log[k].quantity > 0
  }

  /** Rows i and j are an increase of p and a decrease of p that was committed after it. */
  predicate Pair(log: seq<Movement>, p: ProductId, i: nat, j: nat) {
    && i < j < |log| && log[i].product == p && log[j].product == p
    && !Decreases(log[i].kind) && Decreases(log[j].kind)
  }

  /** No decrease of p is dated before an increase of p that was committed before it. */
  ghost predicate IncreasesFirst(log: seq<Movement>, p: ProductId) {
    forall i: nat, j: nat :: Pair(log, p, i, j) ==> log[i].createdAt <= log[j].createdAt
  }

  lemma StockAtSnoc(log: seq<Movement>, m: Movement, p: ProductId, d: int)
    ensures Stock(log + [m], p) == Stock(log, p) + DeltaFor(m, p)
    ensures StockAt(log + [m], p, d) == StockAt(log, p, d) + (if m.createdAt <= d then DeltaFor(m, p) else 0)
  {
    UpToSnoc(log, m, d);
    StockSnoc(log, m, p);
    StockSnoc(UpTo(log, d), m, p);
    assert UpTo(log, d) + [] == UpTo(log, d);
  }

  lemma {:induction false} OnlyDecreasesMissing(log: seq<Movement>, p: ProductId, d: int)
    requires Positive(log)
    requires forall k :: 0 <= k < |log| && log[k].product == p && !Decreases(log[k].kind) ==> log[k].createdAt <= d
    ensures StockAt(log, p, d) >= Stock(log, p)
  {
    if log != [] {
      var k := |log| - 1;
      OnlyDecreasesMissing(log[..k], p, d);
      assert log == log[..k] + [log[k]];
      StockAtSnoc(log[..k], log[k], p, d);
    }
  }

  lemma {:induction false} OrderedHistory(log: seq<Movement>, p: ProductId, d: int)
    requires Positive(log) && PrefixesOk(log) && IncreasesFirst(log, p)
    ensures StockAt(log, p, d) >= 0
  {
    if log != [] {
      var k := |log| - 1;
      var front, m := log[..k], log[k];
      assert log[..|log|] == log && Stock(log[..|log|], p) >= 0;
      if m.product == p && Decreases(m.kind) && m.createdAt <= d {
        forall i | 0 <= i < |log| && log[i].product == p && !Decreases(log[i].kind) ensures log[i].createdAt <= d {
          assert Pair(log, p, i, k);
        }
        OnlyDecreasesMissing(log, p, d);
      } else {
        FrontIsOrdered(log, p);
        OrderedHistory(front, p, d);
        assert log == front + [m];
        StockAtSnoc(front, m, p, d);
      }
    }
  }

  lemma FrontIsOrdered(log: seq<Movement>, p: ProductId)
    requires log != [] && Positive(log) && PrefixesOk(log) && IncreasesFirst(log, p)
    ensures var front := log[..|log| - 1]; Positive(front) && PrefixesOk(front) && IncreasesFirst(front, p)
  {
    var front := log[..|log| - 1];
    forall n, q | 0 <= n <= |front| ensures Stock(front[..n], q) >= 0 {
      assert front[..n] == log[..n];
    }
    forall i: nat, j: nat | Pair(front, p, i, j) ensures front[i].createdAt <= front[j].createdAt {
      assert Pair(log, p, i, j);
    }
  }

  // ---- That order is exact: any other one fails for some quantities ----

  function RaiseAt(log: seq<Movement>, i: nat, b: int): seq<Movement>
    requires i < |log|
  {
    log[i := log[i].(quantity := log[i].quantity + b)]
  }

  /** The same rows, with a delivery and a later order larger by the same quantity. */
  function Raised(log: seq<Movement>, i: nat, j: nat, b: int): seq<Movement>
    requires i < |log| && j < |log|
  {
    RaiseAt(RaiseAt(log, i, b), j, b)
  }

  lemma {:induction false} RaiseMovesStock(log: seq<Movement>, i: nat, b: int, p: ProductId, d: int)
    requires i < |log|
    ensures var r := RaiseAt(log, i, b); var e := if log[i].product == p then Delta(log[i].kind, b) else 0;
      && Stock(r, p) == Stock(log, p) + e
      && StockAt(r, p, d) == StockAt(log, p, d) + (if log[i].createdAt <= d then e else 0)
  {
    var k, r := |log| - 1, RaiseAt(log, i, b);
    assert log == log[..k] + [log[k]] && r == r[..k] + [r[k]];
    hide Stock, StockAt;
    StockAtSnoc(log[..k], log[k], p, d);
    StockAtSnoc(r[..k], r[k], p, d);
    if i < k {
      assert r[..k] == RaiseAt(log[..k], i, b);
      RaiseMovesStock(log[..k], i, b, p, d);
    } else {
      assert r[..k] == log[..k];
    }
  }

  lemma RaisedPrefix(log: seq<Movement>, i: nat, j: nat, b: nat, n: nat, q: ProductId)
    requires exists p :: Pair(log, p, i, j)
    requires n <= |log| && Stock(log[..n], q) >= 0
    ensures Stock(Raised(log, i, j, b)[..n], q) >= 0
  {
    var once, cut := RaiseAt(log, i, b), log[..n];
    var r := Raised(log, i, j, b);
    if i < n {
      assert once[..n] == RaiseAt(cut, i, b);
      RaiseMovesStock(cut, i, b, q, 0);
    } else {
      assert once[..n] == cut;
    }
    if j < n {
      assert r[..n] == RaiseAt(once[..n], j, b);
      RaiseMovesStock(once[..n], j, b, q, 0);
    } else {
      assert r[..n] == once[..n];
    }
  }

  lemma RaisedIsOrdered(log: seq<Movement>, p: ProductId, i: nat, j: nat, b: nat)
    requires Positive(log) && PrefixesOk(log) && IncreasesFirst(log, p) && Pair(log, p, i, j)
    ensures var r := Raised(log, i, j, b); Positive(r) && PrefixesOk(r) && IncreasesFirst(r, p)
  {
    var r := Raised(log, i, j, b);
    forall n, q | 0 <= n <= |r| ensures Stock(r[..n], q) >= 0 {
      RaisedPrefix(log, i, j, b, n, q);
    }
    forall k: nat, l: nat | Pair(r, p, k, l) ensures r[k].createdAt <= r[l].createdAt {
      assert Pair(log, p, k, l);
    }
  }

  /** Some date shows a negative stock once rows i and j are raised by b. */
  ghost predicate ShowsDebt(log: seq<Movement>, p: ProductId, i: nat, j: nat, b: nat, d: int) {
    Pair(log, p, i, j) && StockAt(Raised(log, i, j, b), p, d) < 0
  }

  lemma BadPairShowsDebt(log: seq<Movement>, p: ProductId, i: nat, j: nat)
    requires PrefixesOk(log) && Pair(log, p, i, j) && log[i].createdAt > log[j].createdAt
    ensures exists b, d :: ShowsDebt(log, p, i, j, b, d)
  {
    var d := log[j].createdAt;
    var b: nat := if StockAt(log, p, d) >= 0 then StockAt(log, p, d) + 1 else 0;
    RaiseMovesStock(log, i, b, p, d);
    RaiseMovesStock(RaiseAt(log, i, b), j, b, p, d);
    assert ShowsDebt(log, p, i, j, b, d);
  }

  /** For every log whose stages were all non-negative: no past date shows a negative stock
      of p, however much larger a delivery and a later order of p are made together, if and
      only if no decrease of p is dated before an increase committed before it. */
  lemma OrderExactly(log: seq<Movement>, p: ProductId)
    requires Positive(log) && PrefixesOk(log)
    ensures IncreasesFirst(log, p) ==> forall d :: StockAt(log, p, d) >= 0
    ensures IncreasesFirst(log, p) <==> forall i, j, b, d :: !ShowsDebt(log, p, i, j, b, d)
  {
    if IncreasesFirst(log, p) {
      forall d ensures StockAt(log, p, d) >= 0 {
        OrderedHistory(log, p, d);
      }
      forall i: nat, j: nat, b: nat, d | Pair(log, p, i, j) ensures !ShowsDebt(log, p, i, j, b, d) {
        RaisedIsOrdered(log, p, i, j, b);
        OrderedHistory(Raised(log, i, j, b), p, d);
      }
    } else {
      var i: nat, j: nat :| Pair(log, p, i, j) && log[i].createdAt > log[j].createdAt;
      BadPairShowsDebt(log, p, i, j);
    }
  }

  // ---- A run with another order ----

  /** An order for q units against a view that is two commits old, and a delivery of q. */
  function StaleStart(p: ProductId, q: int): State {
    State({p}, [Movement(p, IN, q, {}, 0), Movement(p, OUT, q, {}, 0)], Some(map[p := q]), 1, {0}, map[],
      [Session(Request(p, OUT, q, {}), ReadProduct, None, None),
       Session(Request(p, IN, q, {}), ReadProduct, None, None)],
      Idle)
  }

  lemma StaleStock(p: ProductId, q: int)
    ensures var log := StaleStart(p, q).log;
      && (forall r :: Stock(log, r) == 0)
      && (forall r :: Stock(log[..1], r) == if r == p then q else 0)
  {
    var bought, sold := Movement(p, IN, q, {}, 0), Movement(p, OUT, q, {}, 0);
    assert [bought, sold][..1] == [bought] && [] + [bought] == [bought] && [bought] + [sold] == [bought, sold];
    forall r
      ensures Stock([bought], r) == (if r == p then q else 0) && Stock([bought, sold], r) == 0
    {
      StockSnoc([], bought, r);
      StockSnoc([bought], sold, r);
    }
  }

  /** The state after the order has been dated 1 and the delivery, dated 2, has committed. */
  function DeliveredState(p: ProductId, q: int): State {
    StaleStart(p, q).(
      now := 2,
      log := StaleStart(p, q).log + [Movement(p, IN, q, {}, 2)],
      sessions := [Session(Request(p, OUT, q, {}), Enter, None, Some(Movement(p, OUT, q, {}, 1))),
                   Session(Request(p, IN, q, {}), Done, None, Some(Movement(p, IN, q, {}, 2)))])
  }

  lemma OrderIsDated(p: ProductId, q: int) returns (run: seq<Action>)
    requires 0 < q
    ensures var s := StaleStart(p, q);
      ValidRun(Bound, s, run) && Run(Bound, s, run) == s.(sessions := [DeliveredState(p, q).sessions[0], s.sessions[1]])
  {
    var s := StaleStart(p, q);
    var x := s.sessions[0];
    run := LocalRun(Bound, s, 0, 0);
    assert LocalStep(s, x) == x.(pc := ReadView);
    assert LocalStep(s, x.(pc := ReadView)) == x.(pc := Build);
    assert FirstPhase(s, x.(pc := ReadView)) == FirstPhase(s, x.(pc := Build));
    assert FirstPhase(s, x) == FirstPhase(s, x.(pc := ReadView));
    assert LocalStep(s, x.(pc := Build)) == DeliveredState(p, q).sessions[0];
    assert FirstPhase(s, DeliveredState(p, q).sessions[0]) == DeliveredState(p, q).sessions[0];
    assert FirstPhase(s, x) == DeliveredState(p, q).sessions[0];
  }

  lemma DeliverySlipsIn(p: ProductId, q: int) returns (run: seq<Action>)
    requires 0 < q <= MAX_INTEGER
    ensures ValidRun(Bound, StaleStart(p, q), run) && Run(Bound, StaleStart(p, q), run) == DeliveredState(p, q)
  {
    var s := StaleStart(p, q);
    run := OrderIsDated(p, q);
    RunSnoc(Bound, s, run, Tick(1));
    run := run + [Tick(1)];
    var t := Run(Bound, s, run);
    var y := t.sessions[1];
    assert LocalStep(t, y) == y.(pc := Build);
    assert LocalStep(t, y.(pc := Build)) == y.(pc := Enter, movement := Some(Movement(p, IN, q, {}, 2)));
    assert FirstPhase(t, y) == FirstPhase(t, y.(pc := Build));
    var z := y.(pc := Enter, movement := Some(Movement(p, IN, q, {}, 2)));
    assert FirstPhase(t, z) == z;
    assert FirstPhase(t, y) == y.(pc := Enter, movement := Some(Movement(p, IN, q, {}, 2)));
    var rest := AloneIsExecuted(t, 1, 0);
    RunConcat(Bound, s, run, rest);
    run := run + rest;
    assert Executed(t, 1).sessions == DeliveredState(p, q).sessions;
  }

  lemma DeliveredHistory(p: ProductId, q: int)
    ensures var s := StaleStart(p, q); var log := DeliveredState(p, q).log + [Movement(p, OUT, q, {}, 1)];
      && StockAt(s.log, p, 1) == 0 && Stock(DeliveredState(p, q).log, p) == q
      && StockAt(log, p, 1) == -q && !IncreasesFirst(log, p)
  {
    var bought, sold := Movement(p, IN, q, {}, 0), Movement(p, OUT, q, {}, 0);
    var paid, order := Movement(p, IN, q, {}, 2), Movement(p, OUT, q, {}, 1);
    assert [] + [bought] == [bought] && [bought] + [sold] == [bought, sold];
    UpToSnoc([], bought, 1);
    UpToSnoc([bought], sold, 1);
    UpToSnoc([bought, sold], paid, 1);
    UpToSnoc([bought, sold] + [paid], order, 1);
    StaleStock(p, q);
    StockSnoc([bought, sold], paid, p);
    StockSnoc([bought, sold], order, p);
    var log := [bought, sold] + [paid] + [order];
    assert log == DeliveredState(p, q).log + [order];
    assert UpTo([bought, sold], 1) == [bought, sold];
    assert UpTo(log, 1) == [bought, sold] + [order];
    assert Pair(log, p, 2, 3) && log[2].createdAt > log[3].createdAt;
  }

  /** Bound keeps committed stock non-negative and still, for every quantity q, some run
      ends with the stock at date 1 equal to -q: the order is dated before the delivery
      that pays for it. The same run shows that an answer for date 1 can change later. */
  lemma HistoryCanGoNegative(p: ProductId, q: int) returns (run: seq<Action>)
    requires 0 < q <= MAX_INTEGER
    ensures var s := StaleStart(p, q);
      && Initial(s, {0}) && PrefixesOk(s.log) && s.view == Some(ViewOf({p}, s.log[..1]))
      && ValidRun(Bound, s, run)
      && StockAt(s.log, p, 1) == 0
      && StockAt(Run(Bound, s, run).log, p, 1) == -q
      && !IncreasesFirst(Run(Bound, s, run).log, p)
  {
    var s, t := StaleStart(p, q), DeliveredState(p, q);
    StaleStock(p, q);
    DeliveredHistory(p, q);
    assert ViewOf({p}, s.log[..1]) == map[p := q];
    forall n, r | 0 <= n <= |s.log| ensures Stock(s.log[..n], r) >= 0 {
      assert s.log[..2] == s.log && s.log[..0] == [];
    }
    run := DeliverySlipsIn(p, q);
    var rest := SecondRun(t, 0, 0);
    RunConcat(Bound, s, run, rest);
    run := run + rest;
  }

  // ---- Stability ----

  /** The session has a dated movement that is not committed yet. */
  predicate InFlight(x: Session) {
    (x.pc.Enter? || InTransaction(x.pc)) && x.movement.Some?
  }

  /** A session that may still append a row dated at or before d. */
  predicate MayStillAppend(x: Session, d: int) {
    InFlight(x) && x.movement.value.createdAt <= d
  }

  ghost predicate Settled(s: State, d: int) {
    d < s.now && forall i :: 0 <= i < |s.sessions| ==> !MayStillAppend(s.sessions[i], d)
  }

  /** A session's action appends at most its own movement, and dates a movement only now. */
  lemma SessionStepDates(w: Wiring, s: State, a: Action, d: int)
    requires SessionsOk(s) && d < s.now && Enabled(w, s, a) && (a.Step? || a.Fail?)
    requires !MayStillAppend(s.sessions[a.i], d)
    ensures var x, t := s.sessions[a.i], Apply(w, s, a);
      && t.now == s.now && |t.sessions| == |s.sessions|
      && t.sessions == s.sessions[a.i := t.sessions[a.i]] && !MayStillAppend(t.sessions[a.i], d)
      && (t.log == s.log || (x.movement.Some? && x.movement.value.createdAt > d && t.log == s.log + [x.movement.value]))
  {
    assert SessionOk(s.sessions[a.i]);
  }

  lemma SettledStep(w: Wiring, s: State, a: Action, d: int)
    requires SessionsOk(s) && Settled(s, d) && Enabled(w, s, a)
    ensures Settled(Apply(w, s, a), d) && UpTo(Apply(w, s, a).log, d) == UpTo(s.log, d)
  {
    if a.Step? || a.Fail? {
      SessionStepDates(w, s, a, d);
      var x, t := s.sessions[a.i], Apply(w, s, a);
      if t.log != s.log {
        UpToSnoc(s.log, x.movement.value, d);
      }
    }
  }

  /** Once the clock is past d and nothing dated at or before d is in flight, every later
      state of every run, under either wiring, answers the same for d. */
  lemma {:induction false} HistoryIsStable(w: Wiring, s: State, run: seq<Action>, p: ProductId, d: int)
    requires SessionsOk(s) && Settled(s, d) && ValidRun(w, s, run)
    ensures UpTo(Run(w, s, run).log, d) == UpTo(s.log, d)
    ensures StockAt(Run(w, s, run).log, p, d) == StockAt(s.log, p, d)
    decreases |run|
  {
    if run != [] {
      SettledStep(w, s, run[0], d);
      SessionsOkStep(w, s, run[0]);
      HistoryIsStable(w, Apply(w, s, run[0]), run[1..], p, d);
    }
  }
}
