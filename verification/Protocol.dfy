/** `RecordMovementUseCase.execute` run by any number of sessions, interleaved
    statement by statement under READ COMMITTED, with view refreshes in between. */
module Protocol {
  import opened Wrappers
  import opened Ledger

  type Conn = nat
  type View = map<ProductId, int>

  /** Which connection the repositories use inside the unit of work. */
  datatype Wiring =
    | Bound    // repositories built with connection = uow.connection
    | Unbound  // repositories built with the pool only

  datatype Error =
    | ProductNotFound | InsufficientStock | InvalidQuantity | InconsistentMetadata | DatabaseError

  /** The next thing a session does. */
  datatype Pc =
    | ReadProduct | ReadView | ReadDirect | Build | Enter
    | Lock | SumLocked | Insert | Commit | Rollback(cause: Error)
    | Done | Failed(error: Error)

  datatype Request = Request(product: ProductId, kind: MovementType, quantity: int, metadata: set<string>)

  datatype Session = Session(request: Request, pc: Pc, conn: Option<Conn>, movement: Option<Movement>)

  datatype Refresher = Idle | Refreshing(conn: Conn, view: View)

  datatype State = State(
    products: set<ProductId>,
    log: seq<Movement>,          // committed rows
    view: Option<View>,          // None: mv_stock_historical does not exist
    now: int,
    free: set<Conn>,             // connections in the pool
    locks: map<ProductId, nat>,  // row locks on products, held to transaction end
    sessions: seq<Session>,
    refresher: Refresher
  )

  datatype Action =
    | Tick(elapsed: nat)
    | AddProduct(product: ProductId)
    | RefreshStart(conn: Conn)
    | RefreshPublish
    | RefreshFail
    | Step(i: nat, conn: Conn)   // session i runs its next statement; conn is used if one is needed
    | Fail(i: nat, taken: Option<Conn>)  // session i's next call raises; `taken` is the connection
                                         // that acquire() handed out before start() raised

  const MAX_INTEGER := 0x7fff_ffff  // INTEGER column

  function ViewOf(products: set<ProductId>, log: seq<Movement>): View {
    map p | p in products :: Stock(log, p)
  }

  /** `_get_conn`: the bound connection if there is one, otherwise (None) the pool. */
  function GetConn(w: Wiring, x: Session): Option<Conn> {
    if w.Bound? then x.conn else None
  }

  predicate IsStatement(pc: Pc) {
    pc.ReadProduct? || pc.ReadView? || pc.ReadDirect? || pc.Lock? || pc.SumLocked? || pc.Insert?
  }

  predicate InTransaction(pc: Pc) {
    pc.Lock? || pc.SumLocked? || pc.Insert? || pc.Commit? || pc.Rollback?
  }

  predicate Finished(pc: Pc) {
    pc.Done? || pc.Failed?
  }

  predicate LockAvailable(s: State, i: nat, p: ProductId) {
    p in s.locks ==> s.locks[p] == i
  }

  predicate Enabled(w: Wiring, s: State, a: Action) {
    match a
    case Tick(_) => true
    case AddProduct(_) => true
    case RefreshStart(c) => s.refresher.Idle? && s.view.Some? && c in s.free
    case RefreshPublish => s.refresher.Refreshing?
    case RefreshFail => s.refresher.Refreshing?
    case Step(i, c) =>
      i < |s.sessions| &&
      var x := s.sessions[i];
      !Finished(x.pc) &&
      (x.pc.Enter? ==> c in s.free) &&
      (IsStatement(x.pc) && GetConn(w, x).None? ==> c in s.free) &&
      (x.pc.Lock? ==> LockAvailable(s, i, x.request.product))
    case Fail(i, taken) =>
      i < |s.sessions| &&
      var x := s.sessions[i];
      !Finished(x.pc) && !x.pc.Build? &&
      (taken.Some? ==> x.pc.Enter? && taken.value in s.free)
  }

  function Update(s: State, i: nat, x: Session): State
    requires i < |s.sessions|
  {
    s.(sessions := s.sessions[i := x])
  }

  function ConnSet(c: Option<Conn>): set<Conn> {
    if c.Some? then {c.value} else {}
  }

  /** End of transaction: row locks are dropped and the connection goes back to the pool. */
  function Release(s: State, i: nat, pc: Pc): State
    requires i < |s.sessions|
  {
    var x := s.sessions[i];
    Update(s, i, x.(pc := pc, conn := None)).(
      free := s.free + ConnSet(x.conn),
      locks := map p | p in s.locks && s.locks[p] != i :: s.locks[p])
  }

  function AfterStockCheck(r: Request, stock: int, next: Pc, refuse: Pc): Pc {
    if StockCheckPasses(r.kind, r.quantity, stock) then next else refuse
  }

  function BuildMovement(r: Request, now: int): Movement {
    Movement(r.product, r.kind, r.quantity, r.metadata, now)
  }

  function AfterBuild(x: Session, now: int): Session {
    var r := x.request;
    if r.quantity <= 0 then x.(pc := Failed(InvalidQuantity))
    else if !MetadataConsistent(r.kind, r.metadata) then x.(pc := Failed(InconsistentMetadata))
    else x.(pc := Enter, movement := Some(BuildMovement(r, now)))
  }

  /** The statements that change nothing but the session itself. */
  function LocalStep(s: State, x: Session): Session {
    var r := x.request;
    match x.pc
    case ReadProduct =>
      if r.product !in s.products then x.(pc := Failed(ProductNotFound))
      else if Decreases(r.kind) then x.(pc := ReadView)
      else x.(pc := Build)
    case ReadView =>
      if s.view.Some? && r.product in s.view.value then
        x.(pc := AfterStockCheck(r, s.view.value[r.product], Build, Failed(InsufficientStock)))
      else
        x.(pc := ReadDirect)
    case ReadDirect =>
      x.(pc := AfterStockCheck(r, Stock(s.log, r.product), Build, Failed(InsufficientStock)))
    case Build => AfterBuild(x, s.now)
    case SumLocked =>
      x.(pc := AfterStockCheck(r, Stock(s.log, r.product), Insert, Rollback(InsufficientStock)))
    case _ => x
  }

  function StepSession(w: Wiring, s: State, i: nat, c: Conn): State
    requires Enabled(w, s, Step(i, c))
  {
    var x := s.sessions[i];
    match x.pc
    case Enter =>
      Update(s, i, x.(pc := if Decreases(x.request.kind) then Lock else Insert, conn := Some(c)))
      .(free := s.free - {c})
    case Lock =>
      // A lock taken on a pool connection ends with its statement.
      Update(s, i, x.(pc := SumLocked))
      .(locks := if w.Bound? then s.locks[x.request.product := i] else s.locks)
    case Insert =>
      if x.movement.None? || x.movement.value.quantity > MAX_INTEGER then
        Update(s, i, x.(pc := Rollback(DatabaseError)))
      else if w.Bound? then
        Update(s, i, x.(pc := Commit))
      else
        Update(s, i, x.(pc := Commit)).(log := s.log + [x.movement.value])
    case Commit =>
      if w.Bound? && x.movement.Some? then
        Release(s, i, Done).(log := s.log + [x.movement.value])
      else
        Release(s, i, Done)
    case Rollback(e) => Release(s, i, Failed(e))
    case _ => Update(s, i, LocalStep(s, x))
  }

  function FailSession(w: Wiring, s: State, i: nat, taken: Option<Conn>): State
    requires Enabled(w, s, Fail(i, taken))
  {
    var x := s.sessions[i];
    match x.pc
    case Enter =>
      // start() fails after acquire(): __aexit__ never runs and the connection stays out.
      Update(s, i, x.(pc := Failed(DatabaseError), conn := taken)).(free := s.free - ConnSet(taken))
    case Commit => Release(s, i, Failed(DatabaseError))
    case Rollback(e) => Release(s, i, Failed(e))
    case _ =>
      Update(s, i, x.(pc := if InTransaction(x.pc) then Rollback(DatabaseError) else Failed(DatabaseError)))
  }

  function Apply(w: Wiring, s: State, a: Action): State
    requires Enabled(w, s, a)
  {
    match a
    case Tick(elapsed) => s.(now := s.now + elapsed)
    case AddProduct(p) => s.(products := s.products + {p})
    case RefreshStart(c) =>
      s.(free := s.free - {c}, refresher := Refreshing(c, ViewOf(s.products, s.log)))
    case RefreshPublish =>
      s.(view := Some(s.refresher.view), free := s.free + {s.refresher.conn}, refresher := Idle)
    case RefreshFail => s.(free := s.free + {s.refresher.conn}, refresher := Idle)
    case Step(i, c) => StepSession(w, s, i, c)
    case Fail(i, taken) => FailSession(w, s, i, taken)
  }

  predicate ValidRun(w: Wiring, s: State, run: seq<Action>)
    decreases |run|
  {
    run == [] || (Enabled(w, s, run[0]) && ValidRun(w, Apply(w, s, run[0]), run[1..]))
  }

  function Run(w: Wiring, s: State, run: seq<Action>): State
    requires ValidRun(w, s, run)
    decreases |run|
  {
    if run == [] then s else Run(w, Apply(w, s, run[0]), run[1..])
  }

  /** No session has begun; the whole pool is free; the view holds anything. */
  ghost predicate Initial(s: State, pool: set<Conn>) {
    s.free == pool && s.locks == map[] && s.refresher.Idle? &&
    forall i :: 0 <= i < |s.sessions| ==>
      s.sessions[i].pc.ReadProduct? && s.sessions[i].conn.None? && s.sessions[i].movement.None?
  }

  lemma {:induction false} RunConcat(w: Wiring, s: State, a: seq<Action>, b: seq<Action>)
    requires ValidRun(w, s, a) && ValidRun(w, Run(w, s, a), b)
    ensures ValidRun(w, s, a + b) && Run(w, s, a + b) == Run(w, Run(w, s, a), b)
    decreases |a|
  {
    if a == [] {
      assert a + b == b;
    } else {
      assert (a + b)[0] == a[0] && (a + b)[1..] == a[1..] + b;
      RunConcat(w, Apply(w, s, a[0]), a[1..], b);
    }
  }

  lemma RunSnoc(w: Wiring, s: State, run: seq<Action>, a: Action)
    requires ValidRun(w, s, run) && Enabled(w, Run(w, s, run), a)
    ensures ValidRun(w, s, run + [a]) && Run(w, s, run + [a]) == Apply(w, Run(w, s, run), a)
  {
    var t, one := Run(w, s, run), [a];
    var u := Apply(w, t, one[0]);
    assert one[1..] == [];
    assert ValidRun(w, u, []) && Run(w, u, []) == u;
    assert ValidRun(w, t, one) && Run(w, t, one) == u;
    RunConcat(w, s, run, one);
  }

  /** One more action of a run whose end state is known. */
  lemma Advance(w: Wiring, s: State, run: seq<Action>, before: State, a: Action, after: State)
    returns (longer: seq<Action>)
    requires ValidRun(w, s, run) && Run(w, s, run) == before
    requires Enabled(w, before, a) && Apply(w, before, a) == after
    ensures ValidRun(w, s, longer) && Run(w, s, longer) == after
  {
    RunSnoc(w, s, run, a);
    longer := run + [a];
  }
}
