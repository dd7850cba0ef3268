/** Which starts of the wiring in use can oversell a product, decided before the run from
    the stock, the requests and the size of the pool. */
module Oversell {
  import opened Wrappers
  import opened Ledger
  import opened Protocol
  import opened Invariants
  import opened BoundSafety
  import opened MaterializedView
  import opened SoloRun
  import opened UnboundTrace
  import opened UnboundWindow

  predicate Storable(r: Request, p: ProductId) {
    r.product == p && 0 < r.quantity <= MAX_INTEGER && MetadataConsistent(r.kind, r.metadata)
  }

  /** What a request can take from the stock of p (`out`), or add to it. */
  function Amount(r: Request, out: bool, p: ProductId): nat {
    if Storable(r, p) && Decreases(r.kind) == out then r.quantity else 0
  }

  /** The amounts of the sessions in `who`. */
  function Total(xs: seq<Session>, who: set<nat>, out: bool, p: ProductId): nat {
    if xs == [] then 0
    else Total(xs[..|xs| - 1], who, out, p) + (if |xs| - 1 in who then Amount(xs[|xs| - 1].request, out, p) else 0)
  }

  /** What is left after the deliveries of `paid` and the decreases of `served`. */
  function Left(xs: seq<Session>, stock: int, paid: set<nat>, served: set<nat>, p: ProductId): int {
    stock + Total(xs, paid, false, p) - Total(xs, served, true, p)
  }

  /** A way to oversell: some deliveries arrive, some decreases are served one after the
      other, and the decreases in `window`, each of which fits what is left, exceed it
      together. Each of them holds a connection, and one more is needed to go on. */
  ghost predicate Plan(xs: seq<Session>, stock: int, pool: nat, paid: set<nat>, served: set<nat>, window: set<nat>,
      p: ProductId) {
    var left := Left(xs, stock, paid, served, p);
    && served !! window && |window| < pool && left >= 0
    && (forall i: nat :: i in window ==> i < |xs| && 0 < Amount(xs[i].request, true, p) <= left)
    && Total(xs, window, true, p) > left
  }

  ghost predicate Oversubscribed(xs: seq<Session>, stock: int, pool: nat, p: ProductId) {
    exists paid: set<nat>, served: set<nat>, window: set<nat> :: Plan(xs, stock, pool, paid, served, window, p)
  }

  lemma {:induction false} SameTotal(xs: seq<Session>, ys: seq<Session>, who: set<nat>, out: bool, p: ProductId)
    requires |xs| == |ys| && forall i :: 0 <= i < |xs| ==> xs[i].request == ys[i].request
    ensures Total(ys, who, out, p) == Total(xs, who, out, p)
  {
    if xs != [] {
      SameTotal(xs[..|xs| - 1], ys[..|ys| - 1], who, out, p);
    }
  }

  lemma SamePlans(xs: seq<Session>, ys: seq<Session>, stock: int, pool: nat, p: ProductId)
    requires |xs| == |ys| && forall i :: 0 <= i < |xs| ==> xs[i].request == ys[i].request
    requires Oversubscribed(ys, stock, pool, p)
    ensures Oversubscribed(xs, stock, pool, p)
  {
    var paid: set<nat>, served: set<nat>, window: set<nat> :| Plan(ys, stock, pool, paid, served, window, p);
    SameTotal(xs, ys, paid, false, p);
    SameTotal(xs, ys, served, true, p);
    SameTotal(xs, ys, window, true, p);
    assert Plan(xs, stock, pool, paid, served, window, p);
  }

  // ---- A run that oversells is a plan ----

  lemma {:induction false} DeltaIsTotals(xs: seq<Session>, who: set<nat>, p: ProductId)
    requires forall i: nat :: i < |xs| && i in who ==> MayHaveInserted(xs[i])
    ensures DeltaSum(xs, who, p) == Total(xs, who, false, p) - Total(xs, who, true, p)
  {
    if xs != [] {
      DeltaIsTotals(xs[..|xs| - 1], who, p);
    }
  }

  function Window(xs: seq<Session>, p: ProductId): set<nat> {
    set i: nat | i < |xs| && InWindow(xs[i], p)
  }

  lemma {:induction false} WindowIsTotal(xs: seq<Session>, who: set<nat>, p: ProductId)
    requires forall i :: 0 <= i < |xs| ==> SessionOk(xs[i])
    requires forall i: nat :: i < |xs| ==> (i in who <==> InWindow(xs[i], p))
    ensures WindowSum(xs, p) == Total(xs, who, true, p)
    ensures forall i: nat :: i < |xs| && i in who ==> 0 < Amount(xs[i].request, true, p) <= WindowSum(xs, p)
  {
    if xs != [] {
      WindowIsTotal(xs[..|xs| - 1], who, p);
      assert SessionOk(xs[|xs| - 1]);
    }
  }

  lemma {:induction false} DistinctConnections(s: State, who: set<nat>, conns: set<Conn>)
    requires forall i: nat :: i in who ==>
      i < |s.sessions| && s.sessions[i].conn.Some? && s.sessions[i].conn.value in conns
    requires forall i, j, c :: Holds(s, i, c) && Holds(s, j, c) ==> i == j
    ensures |who| <= |conns|
  {
    if who != {} {
      var i :| i in who;
      var c := s.sessions[i].conn.value;
      assert Holds(s, i, c);
      forall j: nat | j in who - {i} ensures s.sessions[j].conn.value in conns - {c} {
        assert Holds(s, j, s.sessions[j].conn.value);
      }
      DistinctConnections(s, who - {i}, conns - {c});
    }
  }

  /** The sessions in the window after a check has passed, and its own connection, are
      all different connections of the pool. */
  lemma WindowIsSmall(s: State, a: Action, pool: set<Conn>, p: ProductId)
    requires SessionsOk(s) && PoolOk(s, pool) && Enabled(Unbound, s, a) && Admits(s, a, p)
    ensures |Window(Apply(Unbound, s, a).sessions, p)| < |pool|
  {
    var t := Apply(Unbound, s, a);
    var window := Window(t.sessions, p);
    forall i: nat | i in window
      ensures s.sessions[i].conn.Some? && s.sessions[i].conn.value in pool - {a.conn}
    {
      assert SessionOk(s.sessions[i]);
      assert Holds(s, i, s.sessions[i].conn.value);
    }
    DistinctConnections(s, window, pool - {a.conn});
  }

  ghost predicate NotYet(s: State, log0: seq<Movement>, who: set<nat>, pool: set<Conn>, p: ProductId) {
    SessionsOk(s) && PoolOk(s, pool) && Traced(s, log0, who) && Slack(s, p) >= 0
  }

  /** The sessions that have inserted, and those in the window. */
  lemma AdmissionIsPlan(s: State, t: State, log0: seq<Movement>, who: set<nat>, pool: nat, p: ProductId)
    requires SessionsOk(t) && Traced(t, log0, who) && Slack(s, p) >= 0 > Slack(t, p)
    requires Stock(t.log, p) == Stock(s.log, p) && |Window(t.sessions, p)| < pool
    requires WindowSum(s.sessions, p) >= 0
    requires forall i: nat :: i < |t.sessions| && InWindow(t.sessions[i], p) ==>
      t.sessions[i].request.quantity <= Stock(s.log, p)
    ensures Oversubscribed(t.sessions, Stock(log0, p), pool, p)
  {
    var window := Window(t.sessions, p);
    DeltaIsTotals(t.sessions, who, p);
    WindowIsTotal(t.sessions, window, p);
    assert Plan(t.sessions, Stock(log0, p), pool, who, who, window, p);
  }

  lemma AdmittedFitsAlone(s: State, a: Action, p: ProductId)
    requires SessionsOk(s) && Enabled(Unbound, s, a) && Admits(s, a, p) && Slack(s, p) >= 0
    ensures var t := Apply(Unbound, s, a);
      && t.log == s.log
      && forall i: nat :: i < |t.sessions| && InWindow(t.sessions[i], p) ==>
        t.sessions[i].request.quantity <= Stock(s.log, p)
  {
    WindowIsTotal(s.sessions, Window(s.sessions, p), p);
    var t := Apply(Unbound, s, a);
    forall i: nat | i < |t.sessions| && InWindow(t.sessions[i], p)
      ensures t.sessions[i].request.quantity <= Stock(s.log, p) {
      if i != a.i {
        assert i in Window(s.sessions, p);
      }
    }
  }

  lemma NotYetStep(s: State, a: Action, log0: seq<Movement>, who: set<nat>, pool: set<Conn>, p: ProductId)
    requires NotYet(s, log0, who, pool, p) && Enabled(Unbound, s, a)
    requires !Oversubscribed(s.sessions, Stock(log0, p), |pool|, p)
    ensures NotYet(Apply(Unbound, s, a), log0, Inserted(s, a, who), pool, p)
    ensures !Oversubscribed(Apply(Unbound, s, a).sessions, Stock(log0, p), |pool|, p)
  {
    hide Apply, Enabled, Traced, SessionsOk, PoolOk, Slack, Oversubscribed, Inserted, Admits;
    var t := Apply(Unbound, s, a);
    SessionsOkStep(Unbound, s, a);
    PoolOkStep(Unbound, s, a, pool);
    TracedStep(s, a, log0, who);
    RequestsStayStep(Unbound, s, a);
    if Oversubscribed(t.sessions, Stock(log0, p), |pool|, p) {
      SamePlans(s.sessions, t.sessions, Stock(log0, p), |pool|, p);
    }
    if Slack(t, p) < 0 {
      SlackStep(s, a, p);
      TooMuch(s, a, log0, who, pool, p);
    }
  }

  lemma TooMuch(s: State, a: Action, log0: seq<Movement>, who: set<nat>, pool: set<Conn>, p: ProductId)
    requires NotYet(s, log0, who, pool, p) && Enabled(Unbound, s, a)
    requires Admits(s, a, p) && Slack(Apply(Unbound, s, a), p) < 0
    ensures Oversubscribed(Apply(Unbound, s, a).sessions, Stock(log0, p), |pool|, p)
  {
    var t := Apply(Unbound, s, a);
    SessionsOkStep(Unbound, s, a);
    TracedStep(s, a, log0, who);
    AdmittedFitsAlone(s, a, p);
    WindowIsSmall(s, a, pool, p);
    WindowNotNegative(s.sessions, p);
    hide Apply, Enabled;
    AdmissionIsPlan(s, t, log0, Inserted(s, a, who), |pool|, p);
  }

  lemma {:induction false} NotYetRun(s: State, run: seq<Action>, log0: seq<Movement>, who: set<nat>, pool: set<Conn>,
      p: ProductId)
    requires NotYet(s, log0, who, pool, p) && ValidRun(Unbound, s, run)
    requires !Oversubscribed(s.sessions, Stock(log0, p), |pool|, p)
    ensures SessionsOk(Run(Unbound, s, run)) && Slack(Run(Unbound, s, run), p) >= 0
    decreases |run|
  {
    if run != [] {
      hide Apply, NotYet, Oversubscribed;
      NotYetStep(s, run[0], log0, who, pool, p);
      NotYetRun(Apply(Unbound, s, run[0]), run[1..], log0, Inserted(s, run[0], who), pool, p);
    }
  }

  lemma NotYetAtFirst(s: State, pool: set<Conn>, p: ProductId)
    requires Initial(s, pool) && Stock(s.log, p) >= 0
    ensures NotYet(s, s.log, {}, pool, p)
  {
    NothingTraced(s, pool);
    WindowEmpty(s.sessions, p);
  }

  /** No run, with any faults and any view, oversells p from a start that is not oversubscribed. */
  lemma NeverOversold(s: State, pool: set<Conn>, run: seq<Action>, p: ProductId)
    requires Initial(s, pool) && Stock(s.log, p) >= 0 && ValidRun(Unbound, s, run)
    requires !Oversubscribed(s.sessions, Stock(s.log, p), |pool|, p)
    ensures Stock(Run(Unbound, s, run).log, p) >= 0
  {
    hide NotYet, Oversubscribed;
    NotYetAtFirst(s, pool, p);
    NotYetRun(s, run, s.log, {}, pool, p);
    WindowNotNegative(Run(Unbound, s, run).sessions, p);
  }

  // ---- And every plan is a run ----

  /** Where a session stands after its first phase when nothing refuses it. */
  function Built(x: Session, now: int): Session {
    x.(pc := Enter, movement := Some(BuildMovement(x.request, now)))
  }

  /** The stock covers the session's decrease, in the log and in the view. */
  predicate Covers(s: State, r: Request) {
    Decreases(r.kind) ==> r.quantity <= Stock(s.log, r.product) && r.quantity <= CurrentStock(s.view, s.log, r.product)
  }

  ghost predicate CanGo(s: State, i: nat, hold: Conn, spare: Conn) {
    && i < |s.sessions| && hold in s.free && spare in s.free && hold != spare && s.locks == map[]
    && var x := s.sessions[i];
       && x.pc.ReadProduct? && x.conn.None? && x.request.product in s.products
       && Storable(x.request, x.request.product) && Covers(s, x.request)
  }

  /** One session, from its first read up to just before its insert. */
  lemma DriveToInsert(s: State, i: nat, hold: Conn, spare: Conn) returns (run: seq<Action>)
    requires CanGo(s, i, hold, spare)
    ensures ValidRun(Unbound, s, run)
    ensures Run(Unbound, s, run) ==
      Update(s, i, Built(s.sessions[i], s.now).(pc := Insert, conn := Some(hold))).(free := s.free - {hold})
  {
    FirstPhaseUnrolled(s, s.sessions[i]);
    run := LocalRun(Unbound, s, i, spare);
    var t := Update(s, i, Built(s.sessions[i], s.now));
    var rest := UnlockedRun(t, i, hold, spare);
    RunConcat(Unbound, s, run, rest);
    run := run + rest;
  }

  /** One session, from its first read to its end. */
  lemma Complete(s: State, i: nat, hold: Conn, spare: Conn) returns (run: seq<Action>)
    requires CanGo(s, i, hold, spare)
    ensures ValidRun(Unbound, s, run)
    ensures var x := s.sessions[i]; var m := BuildMovement(x.request, s.now);
      Run(Unbound, s, run) == Update(s, i, x.(pc := Done, movement := Some(m))).(log := s.log + [m])
  {
    FirstPhaseUnrolled(s, s.sessions[i]);
    run := AloneIsExecutedUnbound(s, i, hold, spare);
  }

  predicate Fresh(x: Session) {
    x.pc.ReadProduct? && x.conn.None? && x.movement.None?
  }

  ghost predicate Ready(s: State, who: set<nat>, out: bool, p: ProductId) {
    && s.locks == map[] && p in s.products && SessionsOk(s)
    && (forall i: nat :: i < |s.sessions| && i in who && Amount(s.sessions[i].request, out, p) > 0 ==>
      Fresh(s.sessions[i]))
    && (out ==> Total(s.sessions, who, out, p) <= Stock(s.log, p) && Stock(s.log, p) <= CurrentStock(s.view, s.log, p))
  }

  /** t is s after the sessions in `who` before k have completed. */
  ghost predicate CompletedTo(s: State, t: State, who: set<nat>, out: bool, k: nat, p: ProductId)
    requires k <= |s.sessions|
  {
    && t == s.(log := t.log, sessions := t.sessions) && SameRequests(s, t) && SessionsOk(t)
    && (forall i: nat :: i < |s.sessions| && (i >= k || i !in who || Amount(s.sessions[i].request, out, p) == 0) ==>
      t.sessions[i] == s.sessions[i])
    && (forall i: nat :: i < |s.sessions| && t.sessions[i] != s.sessions[i] ==> t.sessions[i].pc.Done?)
    && var total := Total(s.sessions[..k], who, out, p);
       Stock(t.log, p) == if out then Stock(s.log, p) - total else Stock(s.log, p) + total
  }

  lemma CompletedOneMore(s: State, t: State, u: State, who: set<nat>, out: bool, k: nat, p: ProductId)
    requires 0 < k <= |s.sessions| && CompletedTo(s, t, who, out, k - 1, p)
    requires var x := s.sessions[k - 1]; var m := BuildMovement(x.request, s.now);
      if k - 1 in who && Amount(x.request, out, p) > 0 then
        x.conn.None? && u == Update(t, k - 1, x.(pc := Done, movement := Some(m))).(log := t.log + [m])
      else u == t
    ensures CompletedTo(s, u, who, out, k, p)
  {
    assert s.sessions[..k][..k - 1] == s.sessions[..k - 1];
    StockSnoc(t.log, BuildMovement(s.sessions[k - 1].request, s.now), p);
  }

  lemma {:induction false} PartOfTotal(xs: seq<Session>, k: nat, who: set<nat>, out: bool, p: ProductId)
    requires k < |xs|
    ensures Total(xs[..k], who, out, p) + (if k in who then Amount(xs[k].request, out, p) else 0) <= Total(xs, who,
      out, p)
  {
    var n := |xs| - 1;
    if k < n {
      PartOfTotal(xs[..n], k, who, out, p);
      assert xs[..n][..k] == xs[..k];
    }
  }

  lemma {:induction false} CompleteAll(s: State, who: set<nat>, out: bool, k: nat, p: ProductId, c: Conn, d: Conn)
      returns (run: seq<Action>)
    requires k <= |s.sessions| && c in s.free && d in s.free && c != d && Ready(s, who, out, p)
    ensures ValidRun(Unbound, s, run) && CompletedTo(s, Run(Unbound, s, run), who, out, k, p)
  {
    run := [];
    if k > 0 {
      run := CompleteAll(s, who, out, k - 1, p, c, d);
      var t := Run(Unbound, s, run);
      PartOfTotal(s.sessions, k - 1, who, out, p);
      if k - 1 in who && Amount(s.sessions[k - 1].request, out, p) > 0 {
        assert CanGo(t, k - 1, c, d);
        var more := Complete(t, k - 1, c, d);
        RunConcat(Unbound, s, run, more);
        run := run + more;
      }
      hide Run, ValidRun;
      CompletedOneMore(s, t, Run(Unbound, s, run), who, out, k, p);
    }
  }

  lemma BringViewUpToDate(s: State, p: ProductId, c: Conn) returns (run: seq<Action>)
    requires s.refresher.Idle? && c in s.free
    ensures ValidRun(Unbound, s, run)
    ensures var t := Run(Unbound, s, run); t == s.(view := t.view) && CurrentStock(t.view, t.log, p) == Stock(t.log, p)
  {
    run := [];
    if s.view.Some? {
      RefreshTwoSteps(Unbound, s, c);
      run := [RefreshStart(c), RefreshPublish];
    }
  }

  // ---- Filling the window ----

  function Below(who: set<nat>, k: nat): set<nat> {
    set i | i in who && i < k
  }

  /** Everybody in the window-to-be can still start, fits the stock, and nobody else is in the way. */
  ghost predicate Waiting(s: State, window: set<nat>, p: ProductId) {
    && s.locks == map[] && p in s.products && SessionsOk(s) && |window| < |s.free|
    && Stock(s.log, p) <= CurrentStock(s.view, s.log, p)
    && forall i: nat :: i < |s.sessions| ==>
         if i in window then Fresh(s.sessions[i]) && 0 < Amount(s.sessions[i].request, true, p) <= Stock(s.log, p)
         else !InWindow(s.sessions[i], p)
  }

  /** t is s with the sessions of the window before k driven up to their inserts. */
  ghost predicate DrivenTo(s: State, t: State, window: set<nat>, k: nat, p: ProductId)
    requires k <= |s.sessions|
  {
    && t == s.(free := t.free, sessions := t.sessions) && SameRequests(s, t) && SessionsOk(t)
    && t.free <= s.free && |t.free| + |Below(window, k)| >= |s.free|
    && (forall i: nat :: k <= i < |s.sessions| ==> t.sessions[i] == s.sessions[i])
    && WindowSum(t.sessions[..k], p) == Total(s.sessions[..k], window, true, p)
  }

  lemma TwoOf(a: set<Conn>) returns (c: Conn, d: Conn)
    requires |a| >= 2
    ensures c in a && d in a && c != d
  {
    c :| c in a;
    assert |a - {c}| >= 1;
    d :| d in a - {c};
  }

  lemma BelowGrows(who: set<nat>, k: nat)
    ensures Below(who, k + 1) == if k in who then Below(who, k) + {k} else Below(who, k)
    ensures k in who ==> |Below(who, k)| < |who|
  {
    if k in who {
      SubsetIsSmaller(Below(who, k) + {k}, who);
    }
  }

  lemma {:induction false} DriveAll(s: State, window: set<nat>, k: nat, p: ProductId) returns (run: seq<Action>)
    requires k <= |s.sessions| && Waiting(s, window, p)
    ensures ValidRun(Unbound, s, run) && DrivenTo(s, Run(Unbound, s, run), window, k, p)
  {
    run := [];
    if k == 0 {
      assert Below(window, 0) == {};
    } else {
      run := DriveAll(s, window, k - 1, p);
      var t := Run(Unbound, s, run);
      BelowGrows(window, k - 1);
      if k - 1 in window {
        var hold, spare := TwoOf(t.free);
        assert CanGo(t, k - 1, hold, spare);
        var more := DriveToInsert(t, k - 1, hold, spare);
        RunConcat(Unbound, s, run, more);
        run := run + more;
      }
      hide Run, ValidRun;
      DrivenOneMore(s, t, Run(Unbound, s, run), window, k, p);
    }
  }

  lemma DrivenOneMore(s: State, t: State, u: State, window: set<nat>, k: nat, p: ProductId)
    requires 0 < k <= |s.sessions| && Waiting(s, window, p) && DrivenTo(s, t, window, k - 1, p)
    requires if k - 1 in window then
        exists hold :: hold in t.free &&
          u == Update(t, k - 1,
            Built(s.sessions[k - 1], s.now).(pc := Insert, conn := Some(hold))).(free := t.free - {hold})
      else u == t
    ensures DrivenTo(s, u, window, k, p)
  {
    assert s.sessions[..k][..k - 1] == s.sessions[..k - 1];
    assert u.sessions[..k][..k - 1] == t.sessions[..k - 1];
    BelowGrows(window, k - 1);
  }

  // ---- The run ----

  /** The deliveries, a refresh of the view, and the decreases served one after the other. */
  lemma Prepare(s: State, pool: set<Conn>, paid: set<nat>, served: set<nat>, window: set<nat>, p: ProductId)
      returns (run: seq<Action>)
    requires Initial(s, pool) && Plan(s.sessions, Stock(s.log, p), |pool|, paid, served, window, p)
    ensures ValidRun(Unbound, s, run)
    ensures var t := Run(Unbound, s, run);
      && Waiting(t, window, p) && SameRequests(s, t)
      && Stock(t.log, p) == Left(s.sessions, Stock(s.log, p), paid, served, p)
  {
    var n := |s.sessions|;
    PlanNeedsTwo(s.sessions, Stock(s.log, p), |pool|, paid, served, window, p);
    var c, d := TwoOf(pool);
    var t := s.(products := s.products + {p});
    run := Advance(Unbound, s, [], s, AddProduct(p), t);
    var deliveries := CompleteAll(t, paid, false, n, p, c, d);
    RunConcat(Unbound, s, run, deliveries);
    run := run + deliveries;
    var u := Run(Unbound, t, deliveries);
    var refresh := BringViewUpToDate(u, p, c);
    RunConcat(Unbound, s, run, refresh);
    run := run + refresh;
    var v := Run(Unbound, u, refresh);
    assert s.sessions[..n] == s.sessions && v.sessions[..n] == v.sessions;
    SameTotal(s.sessions, v.sessions, served, true, p);
    var serves := CompleteAll(v, served, true, n, p, c, d);
    RunConcat(Unbound, s, run, serves);
    run := run + serves;
    WindowWaits(s, v, Run(Unbound, v, serves), pool, served, window, p);
  }

  lemma PlanNeedsTwo(xs: seq<Session>, stock: int, pool: nat, paid: set<nat>, served: set<nat>, window: set<nat>,
      p: ProductId)
    requires Plan(xs, stock, pool, paid, served, window, p)
    ensures pool >= 2
  {
    if window == {} {
      NobodyAmounts(xs, true, p);
    }
  }

  lemma {:induction false} NobodyAmounts(xs: seq<Session>, out: bool, p: ProductId)
    ensures Total(xs, {}, out, p) == 0
  {
    if xs != [] {
      NobodyAmounts(xs[..|xs| - 1], out, p);
    }
  }

  lemma WindowWaits(s: State, v: State, u: State, pool: set<Conn>, served: set<nat>, window: set<nat>, p: ProductId)
    requires v.locks == map[] && p in v.products && v.free == pool && |window| < |pool| && served !! window &&
      SameRequests(s, v)
    requires CurrentStock(v.view, v.log, p) == Stock(v.log, p)
    requires forall i: nat :: i < |s.sessions| ==>
      Fresh(v.sessions[i]) || (Amount(s.sessions[i].request, false, p) > 0 && v.sessions[i].pc.Done?)
    requires CompletedTo(v, u, served, true, |v.sessions|, p)
    requires forall i: nat :: i in window ==>
      i < |s.sessions| && 0 < Amount(s.sessions[i].request, true, p) <= Stock(u.log, p)
    ensures Waiting(u, window, p)
  {
  }

  /** From any start with such a plan: a run in which p ends at exactly what is left, less the window. */
  lemma {:induction false} CarryOut(s: State, pool: set<Conn>, paid: set<nat>, served: set<nat>, window: set<nat>,
      p: ProductId) returns (run: seq<Action>)
    requires Initial(s, pool) && Plan(s.sessions, Stock(s.log, p), |pool|, paid, served, window, p)
    ensures ValidRun(Unbound, s, run)
    ensures Stock(Run(Unbound, s, run).log, p) ==
      Left(s.sessions, Stock(s.log, p), paid, served, p) - Total(s.sessions, window, true, p) < 0
  {
    var n := |s.sessions|;
    run := Prepare(s, pool, paid, served, window, p);
    var t := Run(Unbound, s, run);
    SameTotal(s.sessions, t.sessions, window, true, p);
    var drive := DriveAll(t, window, n, p);
    RunConcat(Unbound, s, run, drive);
    run := run + drive;
    var u := Run(Unbound, t, drive);
    assert t.sessions[..n] == t.sessions && u.sessions[..n] == u.sessions;
    SubsetIsSmaller(Below(window, n), window);
    assert |u.free| > 0;
    var c :| c in u.free;
    var inserts := ServeWindow(u, p, c, 0);
    RunConcat(Unbound, s, run, inserts);
    run := run + inserts;
  }

  ghost predicate OversoldBy(s: State, run: seq<Action>, p: ProductId) {
    ValidRun(Unbound, s, run) && Stock(Run(Unbound, s, run).log, p) < 0
  }

  /** For every start: some run of the wiring in use makes the stock of p negative if and
      only if the start is oversubscribed. */
  lemma {:induction false} OversellReachableExactly(s: State, pool: set<Conn>, p: ProductId)
    requires Initial(s, pool) && Stock(s.log, p) >= 0
    ensures (exists run :: OversoldBy(s, run, p)) <==> Oversubscribed(s.sessions, Stock(s.log, p), |pool|, p)
  {
    if Oversubscribed(s.sessions, Stock(s.log, p), |pool|, p) {
      var paid: set<nat>, served: set<nat>,
        window: set<nat> :| Plan(s.sessions, Stock(s.log, p), |pool|, paid, served, window, p);
      var run := CarryOut(s, pool, paid, served, window, p);
      assert OversoldBy(s, run, p);
    } else {
      forall run | ValidRun(Unbound, s, run) ensures !OversoldBy(s, run, p) {
        NeverOversold(s, pool, run, p);
      }
    }
  }

  // ---- Special cases ----

  lemma {:induction false} TotalOfBoth(xs: seq<Session>, a: set<nat>, b: set<nat>, out: bool, p: ProductId)
    requires a !! b
    ensures Total(xs, a + b, out, p) == Total(xs, a, out, p) + Total(xs, b, out, p)
  {
    if xs != [] {
      TotalOfBoth(xs[..|xs| - 1], a, b, out, p);
    }
  }

  lemma {:induction false} TotalGrows(xs: seq<Session>, a: set<nat>, b: set<nat>, out: bool, p: ProductId)
    requires forall i: nat :: i < |xs| && i in a ==> i in b
    ensures Total(xs, a, out, p) <= Total(xs, b, out, p)
  {
    if xs != [] {
      TotalGrows(xs[..|xs| - 1], a, b, out, p);
    }
  }

  /** When everything requested fits the initial stock, every run is safe. */
  lemma EnoughStockIsSafe(s: State, pool: set<Conn>, run: seq<Action>)
    requires Initial(s, pool) && ValidRun(Unbound, s, run)
    requires forall p :: Total(s.sessions, Naturals(|s.sessions|), true, p) <= Stock(s.log, p)
    ensures StockOk(Run(Unbound, s, run))
  {
    forall p ensures Stock(Run(Unbound, s, run).log, p) >= 0 {
      var xs, stock := s.sessions, Stock(s.log, p);
      forall paid: set<nat>, served: set<nat>, window: set<nat>
        ensures !Plan(xs, stock, |pool|, paid, served, window, p) {
        if served !! window {
          TotalOfBoth(xs, served, window, true, p);
          TotalGrows(xs, served + window, Naturals(|xs|), true, p);
        }
      }
      assert Total(xs, Naturals(|xs|), true, p) <= stock;
      NeverOversold(s, pool, run, p);
    }
  }

  lemma {:induction false} TotalOfOne(xs: seq<Session>, i: nat, out: bool, p: ProductId)
    ensures Total(xs, {i}, out, p) == if i < |xs| then Amount(xs[i].request, out, p) else 0
  {
    if xs != [] {
      TotalOfOne(xs[..|xs| - 1], i, out, p);
    }
  }

  /** With at most two connections the second session never gets to its check: every run is safe. */
  lemma TinyPoolIsSafe(s: State, pool: set<Conn>, run: seq<Action>)
    requires Initial(s, pool) && StockOk(s) && ValidRun(Unbound, s, run) && |pool| <= 2
    ensures StockOk(Run(Unbound, s, run))
  {
    forall p ensures Stock(Run(Unbound, s, run).log, p) >= 0 {
      forall paid: set<nat>, served: set<nat>, window: set<nat>
        ensures !Plan(s.sessions, Stock(s.log, p), |pool|, paid, served, window, p) {
        NobodyAmounts(s.sessions, true, p);
        if window != {} && |window| < 2 {
          var i :| i in window;
          assert |window - {i}| == 0 && window == {i};
          TotalOfOne(s.sessions, i, true, p);
        }
      }
      NeverOversold(s, pool, run, p);
    }
  }

  /** Two OUT requests on one product, no view, three pool connections. */
  function TwoOuts(p: ProductId, x: int, q1: int, q2: int): State {
    State({p}, [Movement(p, IN, x, {}, 0)], None, 1, {0, 1, 2}, map[],
      [Session(Request(p, OUT, q1, {}), ReadProduct, None, None),
       Session(Request(p, OUT, q2, {}), ReadProduct, None, None)],
      Idle)
  }

  /** Whenever each of two orders fits the stock x but both together do not, some run
      accepts both and the committed stock is negative. */
  lemma OverlapOversells(p: ProductId, x: int, q1: int, q2: int) returns (run: seq<Action>)
    requires 0 < q1 <= x && 0 < q2 <= x && q1 + q2 > x && x <= MAX_INTEGER
    ensures Initial(TwoOuts(p, x, q1, q2), {0, 1, 2}) && StockOk(TwoOuts(p, x, q1, q2))
    ensures ValidRun(Unbound, TwoOuts(p, x, q1, q2), run)
    ensures Stock(Run(Unbound, TwoOuts(p, x, q1, q2), run).log, p) == x - q1 - q2 < 0
  {
    var s := TwoOuts(p, x, q1, q2);
    var stocked := Movement(p, IN, x, {}, 0);
    forall q ensures Stock(s.log, q) == if q == p then x else 0 {
      StockSnoc([], stocked, q);
      assert [] + [stocked] == s.log;
    }
    TwoTotals(p, x, q1, q2);
    run := CarryOut(s, {0, 1, 2}, {}, {}, {0, 1}, p);
  }

  lemma TwoTotals(p: ProductId, x: int, q1: int, q2: int)
    requires 0 < q1 <= MAX_INTEGER && 0 < q2 <= MAX_INTEGER
    ensures var xs := TwoOuts(p, x, q1, q2).sessions;
      && Total(xs, {0, 1}, true, p) == q1 + q2
      && Total(xs, {}, true, p) == Total(xs, {}, false, p) == 0
  {
    var xs := TwoOuts(p, x, q1, q2).sessions;
    var one := [xs[0]];
    assert xs[..1] == one && one[..0] == [];
    assert Total(one, {0, 1}, true, p) == q1 && Total(one, {}, true, p) == Total(one, {}, false, p) == 0;
  }
}
