/** Which starts of the wiring in use can deadlock, decided before the run from the stock,
    the view, the requests and the size of the pool. */
module Deadlock {
  import opened Wrappers
  import opened Ledger
  import opened Protocol
  import opened Invariants
  import opened PoolProgress
  import opened SoloRun
  import opened MaterializedView
  import opened UnboundTrace
  import opened UnboundPool
  import opened Oversell

  /** The stock of p once the deliveries in `paid` are in. */
  function Stocked(s: State, paid: set<nat>, p: ProductId): int {
    Stock(s.log, p) + Total(s.sessions, paid, false, p)
  }

  /** The first check lets the request through: at the start, or after those deliveries. */
  predicate PassesOnce(s: State, paid: set<nat>, r: Request) {
    Decreases(r.kind) ==>
      r.quantity <= CurrentStock(s.view, s.log, r.product) || r.quantity <= Stocked(s, paid, r.product)
  }

  /** A way to deadlock: `inside` holds at least as many sessions as there are connections,
      and each of them can get into the unit of work, some after deliveries by other
      sessions; a delivery takes two connections. */
  ghost predicate DeadlockPlan(s: State, pool: nat, paid: set<nat>, inside: set<nat>) {
    && s.sessions != [] && inside !! paid && pool <= |inside| && (pool == 1 ==> paid == {})
    && forall i: nat :: i in inside ==>
         i < |s.sessions| && Acceptable(s.sessions[i].request) && PassesOnce(s, paid, s.sessions[i].request)
  }

  // ---- Every deadlock is a plan ----

  /** No reading of the first check exceeds it. */
  function Highest(s0: State, who: set<nat>, p: ProductId): int {
    var first, later := CurrentStock(s0.view, s0.log, p), Stocked(s0, who, p);
    if first >= later then first else later
  }

  predicate PastFirstCheck(x: Session) {
    x.pc.Build? || x.pc.Enter? || InTransaction(x.pc) || x.conn.Some?
  }

  ghost predicate ViewBelow(s0: State, v: View, who: set<nat>) {
    forall p :: p in v ==> v[p] <= Highest(s0, who, p)
  }

  ghost predicate LetIn(s0: State, x: Session, who: set<nat>) {
    PastFirstCheck(x) && Decreases(x.request.kind) ==> x.request.quantity <= Highest(s0, who, x.request.product)
  }

  /** All readings so far, and what they let in. */
  ghost predicate Readings(s0: State, s: State, who: set<nat>) {
    && (s.view.Some? ==> ViewBelow(s0, s.view.value, who))
    && (s.refresher.Refreshing? ==> ViewBelow(s0, s.refresher.view, who))
    && forall i :: 0 <= i < |s.sessions| ==> LetIn(s0, s.sessions[i], who)
  }

  ghost predicate StockBelow(s0: State, s: State, who: set<nat>) {
    forall p :: Stock(s.log, p) <= Highest(s0, who, p)
  }

  lemma StockIsBelow(s0: State, s: State, who: set<nat>)
    requires SameRequests(s0, s) && Traced(s, s0.log, who)
    ensures StockBelow(s0, s, who)
  {
    forall p ensures Stock(s.log, p) <= Highest(s0, who, p) {
      DeltaIsTotals(s.sessions, who, p);
      SameTotal(s0.sessions, s.sessions, who, false, p);
    }
  }

  lemma HighestGrows(s0: State, who: set<nat>, more: set<nat>, p: ProductId)
    requires who <= more
    ensures Highest(s0, who, p) <= Highest(s0, more, p)
  {
    TotalGrows(s0.sessions, who, more, false, p);
  }

  lemma ReadingsGrow(s0: State, s: State, who: set<nat>, more: set<nat>)
    requires who <= more && Readings(s0, s, who)
    ensures Readings(s0, s, more)
  {
    forall p ensures Highest(s0, who, p) <= Highest(s0, more, p) {
      HighestGrows(s0, who, more, p);
    }
  }

  lemma SessionReads(s0: State, s: State, a: Action, who: set<nat>)
    requires SessionsOk(s) && Readings(s0, s, who) && StockBelow(s0, s, who)
    requires Enabled(Unbound, s, a) && (a.Step? || a.Fail?)
    ensures var t := Apply(Unbound, s, a);
      && t.view == s.view && t.refresher == s.refresher
      && |t.sessions| == |s.sessions| && t.sessions == s.sessions[a.i := t.sessions[a.i]]
      && LetIn(s0, t.sessions[a.i], who)
  {
    var x := s.sessions[a.i];
    assert SessionOk(x) && LetIn(s0, x, who);
    hide Highest, SessionsOk;
    match a
    case Step(i, c) => StepReads(s0, s, i, c, who);
    case Fail(i, taken) => FailReads(s0, s, i, taken, who);
    case _ =>
  }

  lemma StepReads(s0: State, s: State, i: nat, c: Conn, who: set<nat>)
    requires Enabled(Unbound, s, Step(i, c)) && SessionOk(s.sessions[i]) && LetIn(s0, s.sessions[i], who)
    requires Readings(s0, s, who) && StockBelow(s0, s, who)
    ensures LetIn(s0, Apply(Unbound, s, Step(i, c)).sessions[i], who)
  {
    hide Highest;
  }

  lemma FailReads(s0: State, s: State, i: nat, taken: Option<Conn>, who: set<nat>)
    requires Enabled(Unbound, s, Fail(i, taken)) && SessionOk(s.sessions[i]) && LetIn(s0, s.sessions[i], who)
    ensures LetIn(s0, Apply(Unbound, s, Fail(i, taken)).sessions[i], who)
  {
    hide Highest;
  }

  lemma ReadingsStep(s0: State, s: State, a: Action, who: set<nat>)
    requires SessionsOk(s) && Readings(s0, s, who) && StockBelow(s0, s, who) && Enabled(Unbound, s, a)
    ensures Readings(s0, Apply(Unbound, s, a), who)
  {
    if a.Step? || a.Fail? {
      SessionReads(s0, s, a, who);
    }
  }

  lemma {:induction false} ReadingsRun(s0: State, s: State, run: seq<Action>, who: set<nat>) returns (all: set<nat>)
    requires SessionsOk(s) && SameRequests(s0, s) && Traced(s, s0.log, who) && Readings(s0, s, who)
    requires ValidRun(Unbound, s, run)
    ensures Traced(Run(Unbound, s, run), s0.log, all) && Readings(s0, Run(Unbound, s, run), all)
    decreases |run|
  {
    all := who;
    if run != [] {
      hide SessionsOk, Traced, Readings, StockBelow, Apply, Inserted;
      var a, t := run[0], Apply(Unbound, s, run[0]);
      StockIsBelow(s0, s, who);
      ReadingsStep(s0, s, a, who);
      MoreInserted(s, a, who);
      ReadingsGrow(s0, t, who, Inserted(s, a, who));
      SessionsOkStep(Unbound, s, a);
      TracedStep(s, a, s0.log, who);
      RequestsStayStep(Unbound, s, a);
      all := ReadingsRun(s0, t, run[1..], Inserted(s, a, who));
    }
  }

  lemma MoreInserted(s: State, a: Action, who: set<nat>)
    requires Enabled(Unbound, s, a)
    ensures who <= Inserted(s, a, who)
  {
  }

  function Holders(xs: seq<Session>): set<nat> {
    set i: nat | i < |xs| && xs[i].conn.Some?
  }

  lemma {:induction false} HoldersAreEnough(xs: seq<Session>)
    ensures |HeldBy(xs)| <= |Holders(xs)|
    ensures forall i: nat :: i < |xs| && xs[i].conn.Some? ==> xs[i].conn.value in HeldBy(xs)
  {
    if xs != [] {
      HoldersAreEnough(xs[..|xs| - 1]);
      OneMoreHolder(xs);
    }
  }

  lemma OneMoreHolder(xs: seq<Session>)
    requires xs != []
    ensures var n := |xs| - 1;
      |Holders(xs)| == |Holders(xs[..n])| + (if xs[n].conn.Some? then 1 else 0)
  {
    var n := |xs| - 1;
    assert Holders(xs) == Holders(xs[..n]) + (if xs[n].conn.Some? then {n} else {});
  }

  lemma InsideDidNotInsert(s: State, log0: seq<Movement>, who: set<nat>)
    requires Traced(s, log0, who)
    requires forall i :: 0 <= i < |s.sessions| && !Finished(s.sessions[i].pc) ==> NeedsPoolConnection(s.sessions[i].pc)
    ensures Holders(s.sessions) !! who
  {
    forall i: nat | i in who ensures i !in Holders(s.sessions) {
      assert MayHaveInserted(s.sessions[i]);
    }
  }

  /** A deadlocked state: the sessions that hold a connection are inside, those that have
      inserted have paid. */
  lemma StateIsPlan(s: State, t: State, pool: set<Conn>, who: set<nat>)
    requires SameRequests(s, t) && SessionsOk(t) && PoolOk(t, pool) && Traced(t, s.log, who) && Readings(s, t, who)
    requires t.locks == map[] && Deadlock(t) && (|pool| == 1 ==> who == {})
    ensures DeadlockPlan(s, |pool|, who, Holders(t.sessions))
  {
    StuckExactly(t);
    PoolIsInside(t, pool);
    InsideDidNotInsert(t, s.log, who);
    forall i: nat | i in Holders(t.sessions)
      ensures Acceptable(s.sessions[i].request) && PassesOnce(s, who, s.sessions[i].request)
    {
      assert SessionOk(t.sessions[i]) && LetIn(s, t.sessions[i], who);
    }
  }

  lemma PoolIsInside(t: State, pool: set<Conn>)
    requires PoolOk(t, pool) && t.free == {} && t.refresher.Idle?
    ensures |pool| <= |Holders(t.sessions)|
  {
    HoldersAreEnough(t.sessions);
    AllHeld(t, pool);
    SubsetIsSmaller(pool, HeldBy(t.sessions));
  }

  lemma DeadlockIsPlan(s: State, pool: set<Conn>, run: seq<Action>)
    requires Initial(s, pool) && DeadlocksBy(s, run)
    ensures exists paid, inside :: DeadlockPlan(s, |pool|, paid, inside)
  {
    NothingTraced(s, pool);
    assert Readings(s, s, {});
    hide Readings, PoolOk, SessionsOk, Deadlock, DeadlockPlan, Run, Writers;
    var t := Run(Unbound, s, run);
    var who := ReadingsRun(s, s, run, {});
    PoolIsConserved(Unbound, s, run, pool);
    NoRowLocks(s, run);
    RequestsStay(Unbound, s, run);
    if |pool| == 1 {
      OneConnectionWritesNothing(s, pool, run);
      assert |t.log| == |s.log| + |who|;
    }
    StateIsPlan(s, t, pool, who);
  }

  // ---- Every plan is a deadlock ----

  function Products(xs: seq<Session>): set<ProductId> {
    if xs == [] then {} else Products(xs[..|xs| - 1]) + {xs[|xs| - 1].request.product}
  }

  lemma {:induction false} AllProducts(xs: seq<Session>)
    ensures forall i :: 0 <= i < |xs| ==> xs[i].request.product in Products(xs)
  {
    if xs != [] {
      AllProducts(xs[..|xs| - 1]);
    }
  }

  lemma {:induction false} AddAll(s: State, k: nat) returns (run: seq<Action>)
    requires k <= |s.sessions|
    ensures ValidRun(Unbound, s, run)
    ensures Run(Unbound, s, run) == s.(products := s.products + Products(s.sessions[..k]))
  {
    run := [];
    if k > 0 {
      run := AddAll(s, k - 1);
      assert s.sessions[..k][..k - 1] == s.sessions[..k - 1];
      var t := s.(products := s.products + Products(s.sessions[..k - 1]));
      run := Advance(Unbound, s, run, t, AddProduct(s.sessions[k - 1].request.product),
        s.(products := s.products + Products(s.sessions[..k])));
    }
  }

  /** The sessions of `who` before k have run up to `async with`, if they get that far. */
  function AtTheDoor(s: State, who: set<nat>, k: nat): State
    requires k <= |s.sessions|
  {
    s.(sessions := seq(|s.sessions|, i requires 0 <= i < |s.sessions| =>
      if i < k && i in who then FirstPhase(s, s.sessions[i]) else s.sessions[i]))
  }

  lemma {:induction false} GoToTheDoor(s: State, who: set<nat>, k: nat, c: Conn) returns (run: seq<Action>)
    requires k <= |s.sessions| && c in s.free
    requires forall i: nat :: i < |s.sessions| && i in who ==> Fresh(s.sessions[i])
    ensures ValidRun(Unbound, s, run) && Run(Unbound, s, run) == AtTheDoor(s, who, k)
  {
    run := [];
    if k == 0 {
      assert AtTheDoor(s, who, 0).sessions == s.sessions;
    } else {
      run := GoToTheDoor(s, who, k - 1, c);
      var t := AtTheDoor(s, who, k - 1);
      if k - 1 in who {
        var more := LocalRun(Unbound, t, k - 1, c);
        SameFirstPhase(s, t, s.sessions[k - 1]);
        RunConcat(Unbound, s, run, more);
        run := run + more;
        assert Run(Unbound, s, run).sessions == AtTheDoor(s, who, k).sessions;
      } else {
        assert t.sessions == AtTheDoor(s, who, k).sessions;
      }
    }
  }

  predicate WaitsAtDoor(x: Session) {
    x.pc.Enter? && x.conn.None?
  }

  /** Those of `who` whom the first check lets through stand at the door, the others as before. */
  lemma AdmittedToTheDoor(s: State, who: set<nat>, c: Conn) returns (run: seq<Action>)
    requires c in s.free
    requires forall i: nat :: i < |s.sessions| && i in who ==>
      var x := s.sessions[i];
      && Fresh(x) && Acceptable(x.request) && x.request.product in s.products
      && (Decreases(x.request.kind) ==> x.request.quantity <= CurrentStock(s.view, s.log, x.request.product))
    ensures ValidRun(Unbound, s, run)
    ensures var t := Run(Unbound, s, run);
      && t == s.(sessions := t.sessions) && SameRequests(s, t)
      && forall i: nat :: i < |s.sessions| ==>
           if i in who then WaitsAtDoor(t.sessions[i]) else t.sessions[i] == s.sessions[i]
  {
    run := GoToTheDoor(s, who, |s.sessions|, c);
    forall i: nat | i < |s.sessions| && i in who
      ensures FirstPhase(s, s.sessions[i]) == Built(s.sessions[i], s.now)
    {
      FirstPhaseUnrolled(s, s.sessions[i]);
    }
  }

  predicate CanPay(r: Request) {
    Storable(r, r.product) && !Decreases(r.kind)
  }

  /** t is s after the deliveries of `paid` before k. */
  ghost predicate PaidTo(s: State, t: State, paid: set<nat>, k: nat)
    requires k <= |s.sessions|
  {
    && t == s.(log := t.log, sessions := t.sessions) && SameRequests(s, t)
    && (forall i: nat :: i < |s.sessions| ==>
          if i < k && i in paid && CanPay(s.sessions[i].request) then t.sessions[i].pc.Done?
          else t.sessions[i] == s.sessions[i])
    && forall p :: Stock(t.log, p) == Stock(s.log, p) + Total(s.sessions[..k], paid, false, p)
  }

  lemma PaidOneMore(s: State, t: State, u: State, paid: set<nat>, k: nat)
    requires 0 < k <= |s.sessions| && PaidTo(s, t, paid, k - 1)
    requires var x := s.sessions[k - 1]; var m := BuildMovement(x.request, s.now);
      u == if k - 1 in paid && CanPay(x.request)
        then Update(t, k - 1, x.(pc := Done, movement := Some(m))).(log := t.log + [m]) else t
    ensures PaidTo(s, u, paid, k)
  {
    assert s.sessions[..k][..k - 1] == s.sessions[..k - 1];
    forall p ensures Stock(u.log, p) == Stock(s.log, p) + Total(s.sessions[..k], paid, false, p) {
      StockSnoc(t.log, BuildMovement(s.sessions[k - 1].request, s.now), p);
    }
  }

  lemma {:induction false} PayAll(s: State, paid: set<nat>, k: nat, c: Conn, d: Conn) returns (run: seq<Action>)
    requires k <= |s.sessions| && c in s.free && d in s.free && c != d && s.locks == map[]
    requires forall i: nat :: i < |s.sessions| && i in paid ==>
      Fresh(s.sessions[i]) && s.sessions[i].request.product in s.products
    ensures ValidRun(Unbound, s, run) && PaidTo(s, Run(Unbound, s, run), paid, k)
  {
    run := [];
    if k > 0 {
      run := PayAll(s, paid, k - 1, c, d);
      var t := Run(Unbound, s, run);
      if k - 1 in paid && CanPay(s.sessions[k - 1].request) {
        assert CanGo(t, k - 1, c, d);
        var more := Complete(t, k - 1, c, d);
        RunConcat(Unbound, s, run, more);
        run := run + more;
      }
      hide Run, ValidRun;
      PaidOneMore(s, t, Run(Unbound, s, run), paid, k);
    }
  }

  /** The deliveries, if there is a second connection. */
  lemma Pay(s: State, paid: set<nat>) returns (run: seq<Action>)
    requires s.free != {} && s.locks == map[] && (|s.free| == 1 ==> paid == {})
    requires forall i: nat :: i < |s.sessions| && i in paid ==>
      Fresh(s.sessions[i]) && s.sessions[i].request.product in s.products
    ensures ValidRun(Unbound, s, run) && PaidTo(s, Run(Unbound, s, run), paid, |s.sessions|)
  {
    if |s.free| >= 2 {
      var c, d := TwoOf(s.free);
      run := PayAll(s, paid, |s.sessions|, c, d);
    } else {
      run := [];
      forall p ensures Total(s.sessions[..|s.sessions|], paid, false, p) == 0 {
        NobodyAmounts(s.sessions[..|s.sessions|], false, p);
      }
    }
  }

  lemma Refreshed(s: State) returns (run: seq<Action>)
    requires s.refresher.Idle? && s.free != {}
    ensures ValidRun(Unbound, s, run)
    ensures var t := Run(Unbound, s, run);
      t == s.(view := t.view) && forall p :: CurrentStock(t.view, t.log, p) == Stock(t.log, p)
  {
    run := [];
    if s.view.Some? {
      var c :| c in s.free;
      RefreshTwoSteps(Unbound, s, c);
      run := [RefreshStart(c), RefreshPublish];
    }
  }

  // ---- Taking every connection ----

  function AtEnter(xs: seq<Session>): nat {
    if xs == [] then 0 else AtEnter(xs[..|xs| - 1]) + (if xs[|xs| - 1].pc.Enter? then 1 else 0)
  }

  lemma {:induction false} AtEnterUpdate(xs: seq<Session>, i: nat, y: Session)
    requires i < |xs| && xs[i].pc.Enter? && !y.pc.Enter?
    ensures AtEnter(xs[i := y]) == AtEnter(xs) - 1
  {
    var n := |xs| - 1;
    if i == n {
      assert xs[i := y][..n] == xs[..n];
    } else {
      assert xs[i := y][..n] == xs[..n][i := y];
      AtEnterUpdate(xs[..n], i, y);
    }
  }

  lemma {:induction false} SomeoneAtEnter(xs: seq<Session>) returns (i: nat)
    requires AtEnter(xs) > 0
    ensures i < |xs| && xs[i].pc.Enter?
  {
    i := |xs| - 1;
    if !xs[i].pc.Enter? {
      i := SomeoneAtEnter(xs[..i]);
    }
  }

  lemma {:induction false} ManyAtEnter(xs: seq<Session>, who: set<nat>)
    requires forall i: nat :: i in who ==> i < |xs| && xs[i].pc.Enter?
    ensures AtEnter(xs) >= |who|
  {
    if xs == [] {
      assert who == {};
    } else {
      var n := |xs| - 1;
      ManyAtEnter(xs[..n], who - {n});
      assert |who - {n}| >= |who| - (if n in who then 1 else 0);
    }
  }

  /** Nobody is in the middle of something that needs no connection. */
  predicate WaitingOrOut(x: Session) {
    && (x.pc.ReadProduct? || x.pc.Enter? || x.pc.Lock? || x.pc.Insert? || Finished(x.pc))
    && (x.pc.Enter? ==> x.conn.None?)
  }

  /** Sessions at the door take every free connection. */
  lemma {:induction false} EnterWhileFree(s: State) returns (run: seq<Action>)
    requires |s.free| <= AtEnter(s.sessions)
    requires forall i :: 0 <= i < |s.sessions| ==> WaitingOrOut(s.sessions[i])
    ensures ValidRun(Unbound, s, run)
    ensures var t := Run(Unbound, s, run);
      && t.free == {} && t.refresher == s.refresher && t.locks == s.locks && |t.sessions| == |s.sessions|
      && forall i :: 0 <= i < |t.sessions| ==>
           WaitingOrOut(t.sessions[i]) && (Finished(t.sessions[i].pc) <==> Finished(s.sessions[i].pc))
    decreases |s.free|
  {
    run := [];
    if s.free != {} {
      var c :| c in s.free;
      var i := SomeoneAtEnter(s.sessions);
      var t := Apply(Unbound, s, Step(i, c));
      assert |s.free - {c}| == |s.free| - 1;
      AtEnterUpdate(s.sessions, i, t.sessions[i]);
      assert forall j :: 0 <= j < |t.sessions| ==> WaitingOrOut(t.sessions[j]);
      var rest := EnterWhileFree(t);
      run := [Step(i, c)] + rest;
      assert run[1..] == rest;
    }
  }

  lemma FullHouse(s: State, inside: set<nat>) returns (run: seq<Action>)
    requires s.locks == map[] && s.refresher.Idle? && 0 < |s.free| <= |inside|
    requires forall i: nat :: i in inside ==> i < |s.sessions| && s.sessions[i].pc.Enter?
    requires forall i :: 0 <= i < |s.sessions| ==> WaitingOrOut(s.sessions[i])
    ensures DeadlocksBy(s, run)
  {
    ManyAtEnter(s.sessions, inside);
    var i: nat :| i in inside;
    run := EnterWhileFree(s);
    var t := Run(Unbound, s, run);
    assert WaitingOrOut(t.sessions[i]) && !Finished(t.sessions[i].pc);
    StuckExactly(t);
  }

  // ---- The run ----

  function EarlyOf(s: State, inside: set<nat>): set<nat> {
    set i: nat | i in inside && i < |s.sessions| &&
      (Decreases(s.sessions[i].request.kind) ==>
         s.sessions[i].request.quantity <= CurrentStock(s.view, s.log, s.sessions[i].request.product))
  }

  /** Those that pass at once go to the door, then the deliveries arrive and the view is refreshed. */
  lemma EarlyPart(s: State, pool: set<Conn>, paid: set<nat>, inside: set<nat>) returns (run: seq<Action>)
    requires Initial(s, pool) && pool != {} && DeadlockPlan(s, |pool|, paid, inside)
    ensures ValidRun(Unbound, s, run)
    ensures var t := Run(Unbound, s, run); var early := EarlyOf(s, inside);
      && t.free == pool && t.locks == map[] && t.refresher.Idle? && SameRequests(s, t)
      && (forall i :: 0 <= i < |s.sessions| ==> s.sessions[i].request.product in t.products)
      && (forall p :: CurrentStock(t.view, t.log, p) == Stock(t.log, p) == Stocked(s, paid, p))
      && forall i: nat :: i < |s.sessions| ==>
           if i in early then WaitsAtDoor(t.sessions[i])
           else Fresh(t.sessions[i]) || (i in paid && t.sessions[i].pc.Done?)
  {
    var n, early := |s.sessions|, EarlyOf(s, inside);
    run := AddAll(s, n);
    AllProducts(s.sessions);
    assert s.sessions[..n] == s.sessions;
    var t := Run(Unbound, s, run);
    var c :| c in pool;
    var first := AdmittedToTheDoor(t, early, c);
    RunConcat(Unbound, s, run, first);
    run := run + first;
    var u := Run(Unbound, t, first);
    var deliveries := Pay(u, paid);
    RunConcat(Unbound, s, run, deliveries);
    run := run + deliveries;
    var v := Run(Unbound, u, deliveries);
    assert u.sessions[..n] == u.sessions;
    forall p ensures Stock(v.log, p) == Stocked(s, paid, p) {
      SameTotal(s.sessions, u.sessions, paid, false, p);
    }
    var refresh := Refreshed(v);
    RunConcat(Unbound, s, run, refresh);
    run := run + refresh;
  }

  lemma CarryOutDeadlock(s: State, pool: set<Conn>, paid: set<nat>, inside: set<nat>) returns (run: seq<Action>)
    requires Initial(s, pool) && DeadlockPlan(s, |pool|, paid, inside)
    ensures DeadlocksBy(s, run)
  {
    if pool == {} {
      run := [];
      assert s.sessions[0].pc.ReadProduct?;
      StuckExactly(s);
      return;
    }
    run := EarlyPart(s, pool, paid, inside);
    var t, late := Run(Unbound, s, run), inside - EarlyOf(s, inside);
    var c :| c in pool;
    var second := AdmittedToTheDoor(t, late, c);
    RunConcat(Unbound, s, run, second);
    run := run + second;
    var u := Run(Unbound, t, second);
    var enters := FullHouse(u, inside);
    RunConcat(Unbound, s, run, enters);
    run := run + enters;
  }

  /** For every start and every pool: some run of the wiring in use deadlocks if and only if
      there is such a plan. */
  lemma DeadlockReachableExactly(s: State, pool: set<Conn>)
    requires Initial(s, pool)
    ensures (exists run :: DeadlocksBy(s, run)) <==> exists paid, inside :: DeadlockPlan(s, |pool|, paid, inside)
  {
    if paid, inside :| DeadlockPlan(s, |pool|, paid, inside) {
      var run := CarryOutDeadlock(s, pool, paid, inside);
    }
    if run :| DeadlocksBy(s, run) {
      DeadlockIsPlan(s, pool, run);
    }
  }

  // ---- By the numbers ----

  /** m sessions that only add stock, and a pool of n connections. */
  function Arrivals(m: nat, n: nat): State {
    State({0}, [], None, 0, Naturals(n), map[],
      seq(m, _ => Session(Request(0, IN, 1, {}), ReadProduct, None, None)), Idle)
  }

  /** A start with m sessions and n connections from which some run deadlocks. */
  ghost predicate DeadlockStart(s: State, pool: set<Conn>, m: nat, n: nat) {
    Initial(s, pool) && |s.sessions| == m && |pool| == n && exists run :: DeadlocksBy(s, run)
  }

  /** m sessions can deadlock a pool of n connections if and only if 0 < m and n <= m. */
  lemma DeadlockBySize(m: nat, n: nat)
    ensures (exists s, pool :: DeadlockStart(s, pool, m, n)) <==> 0 < m && n <= m
  {
    if 0 < m && n <= m {
      ArrivalsDeadlock(m, n);
    }
    if s, pool :| DeadlockStart(s, pool, m, n) {
      PlanNeedsSessions(s, pool);
    }
  }

  lemma ArrivalsDeadlock(m: nat, n: nat)
    requires 0 < m && n <= m
    ensures DeadlockStart(Arrivals(m, n), Naturals(n), m, n)
  {
    assert DeadlockPlan(Arrivals(m, n), n, {}, Naturals(m));
    DeadlockReachableExactly(Arrivals(m, n), Naturals(n));
  }

  lemma PlanNeedsSessions(s: State, pool: set<Conn>)
    requires Initial(s, pool) && exists run :: DeadlocksBy(s, run)
    ensures 0 < |s.sessions| && |pool| <= |s.sessions|
  {
    DeadlockReachableExactly(s, pool);
    var paid, inside :| DeadlockPlan(s, |pool|, paid, inside);
    SubsetIsSmaller(inside, Naturals(|s.sessions|));
  }
}
