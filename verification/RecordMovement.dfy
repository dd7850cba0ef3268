/** `RecordMovementUseCase.execute` and the unit of work as the program runs them, one
    caller at a time, with a fault at any database call. */
module RecordMovement {
  import opened Wrappers
  import opened Ledger
  import opened Protocol
  import opened MaterializedView
  import opened SoloRun

  datatype Result<+T> = Success(value: T) | Failure(error: Error)

  /** Which database calls raise. */
  datatype Faults = Faults(
    readProduct: bool, readStock: bool, acquire: bool, start: bool, lock: bool, sum: bool, insert: bool,
    commit: bool, rollback: bool)

  const NO_FAULTS := Faults(false, false, false, false, false, false, false, false, false)

  class Pool {
    var free: set<Conn>

    constructor (conns: set<Conn>)
      ensures free == conns
    {
      free := conns;
    }
  }

  class Database {
    var products: set<ProductId>
    var log: seq<Movement>
    var view: Option<View>
    var pending: seq<Movement>  // rows inserted by the open transaction

    constructor (products: set<ProductId>, log: seq<Movement>, view: Option<View>)
      ensures this.products == products && this.log == log && this.view == view && pending == []
    {
      this.products, this.log, this.view, this.pending := products, log, view, [];
    }

    /** `_get_stock_direct`: the loop the SQL aggregate stands for. */
    method GetStockDirect(p: ProductId) returns (stock: int)
      ensures stock == Stock(log, p)
    {
      stock := 0;
      for i := 0 to |log|
        invariant stock == Stock(log[..i], p)
      {
        StockSnoc(log[..i], log[i], p);
        assert log[..i + 1] == log[..i] + [log[i]];
        if log[i].product == p {
          stock := stock + Delta(log[i].kind, log[i].quantity);
        }
      }
      assert log[..|log|] == log;
    }

    /** `get_current_stock`: the view first, the direct sum if the view has no row. */
    method GetCurrentStock(p: ProductId) returns (stock: int)
      ensures stock == CurrentStock(view, log, p)
    {
      if view.Some? && p in view.value {
        return view.value[p];
      }
      stock := GetStockDirect(p);
    }
  }

  class PostgresUnitOfWork {
    const pool: Pool
    const db: Database
    var connection: Option<Conn>
    var transaction: bool

    constructor (pool: Pool, db: Database)
      ensures this.pool == pool && this.db == db && connection.None? && !transaction
    {
      this.pool, this.db := pool, db;
      connection, transaction := None, false;
    }

    /** `__aenter__`. acquire() waits for a free connection, or raises. */
    method Enter(acquireFails: bool, startFails: bool) returns (raised: bool)
      requires connection.None? && pool.free != {}
      modifies this, pool
      ensures raised == (acquireFails || startFails)
      ensures acquireFails ==> unchanged(this) && unchanged(pool)
      ensures !acquireFails ==>
        && transaction && connection.Some? && connection.value in old(pool.free)
        && pool.free == old(pool.free) - {connection.value}
    {
      if acquireFails {
        return true;
      }
      var c :| c in pool.free;
      pool.free := pool.free - {c};
      connection := Some(c);
      transaction := true;
      raised := startFails;
    }

    /** `__aexit__`: commit or roll back, release in every case, and say which error leaves
        the `async with` block: an active exception is never replaced. */
    method Exit(active: Option<Error>, endFails: bool) returns (raised: Option<Error>)
      modifies this, pool, db`log, db`pending
      ensures raised == if active.Some? then active
        else if old(transaction) && endFails then Some(DatabaseError) else None
      ensures old(transaction) ==>
        && db.pending == []
        && db.log == (if active.None? && !endFails then old(db.log) + old(db.pending) else old(db.log))
        && pool.free == old(pool.free) + ConnSet(old(connection))
        && connection.None? && (old(connection).Some? ==> !transaction)
      ensures !old(transaction) ==> unchanged(this) && unchanged(pool) && unchanged(db)
    {
      raised := active;
      if !transaction {
        return;
      }
      if active.None? && !endFails {
        db.log := db.log + db.pending;
      } else if active.None? {
        raised := Some(DatabaseError);
      }
      db.pending := [];
      if connection.Some? {
        pool.free := pool.free + {connection.value};
        connection := None;
        transaction := false;
      }
    }
  }

  /** Why `execute` stops before the unit of work, if it does. */
  function EarlyRefusal(products: set<ProductId>, log: seq<Movement>, view: Option<View>, r: Request,
      faults: Faults): Option<Error> {
    if faults.readProduct then Some(DatabaseError)
    else if r.product !in products then Some(ProductNotFound)
    else if Decreases(r.kind) && faults.readStock then Some(DatabaseError)
    else if Decreases(r.kind) && !StockCheckPasses(r.kind, r.quantity, CurrentStock(view, log, r.product)) then
      Some(InsufficientStock)
    else if r.quantity <= 0 then Some(InvalidQuantity)
    else if !MetadataConsistent(r.kind, r.metadata) then Some(InconsistentMetadata)
    else None
  }

  /** Why the body of the `async with` block raises, if it does. */
  function LateRefusal(log: seq<Movement>, r: Request, faults: Faults): Option<Error> {
    if Decreases(r.kind) && (faults.lock || faults.sum) then Some(DatabaseError)
    else if Decreases(r.kind) &&
      !StockCheckPasses(r.kind, r.quantity, Stock(log, r.product)) then Some(InsufficientStock)
    else if faults.insert || r.quantity > MAX_INTEGER then Some(DatabaseError)
    else None
  }

  /** The request gets into the body of the `async with` block. */
  predicate GetsInside(products: set<ProductId>, log: seq<Movement>, view: Option<View>, r: Request, faults: Faults) {
    EarlyRefusal(products, log, view, r, faults).None? && !faults.acquire && !faults.start
  }

  /** Why no movement is inserted. */
  function Refusal(products: set<ProductId>, log: seq<Movement>, view: Option<View>, r: Request,
      faults: Faults): Option<Error> {
    var early := EarlyRefusal(products, log, view, r, faults);
    if early.Some? then early
    else if faults.acquire || faults.start then Some(DatabaseError)
    else LateRefusal(log, r, faults)
  }

  /** What `execute` answers when nothing faults. */
  function Outcome(products: set<ProductId>, log: seq<Movement>, view: Option<View>, r: Request,
      now: int): Result<Movement> {
    var refusal := Refusal(products, log, view, r, NO_FAULTS);
    if refusal.Some? then Failure(refusal.value) else Success(BuildMovement(r, now))
  }

  class RecordMovementUseCase {
    const db: Database
    const uow: PostgresUnitOfWork
    const wiring: Wiring

    constructor (db: Database, uow: PostgresUnitOfWork, wiring: Wiring)
      ensures this.db == db && this.uow == uow && this.wiring == wiring
    {
      this.db, this.uow, this.wiring := db, uow, wiring;
    }

    /** The body of the `async with` block. Repositories that know the pool only wait for a
        connection of their own for each statement. */
    method InsideTransaction(r: Request, m: Movement, faults: Faults) returns (raised: Option<Error>)
      requires db.pending == [] && m == BuildMovement(r, m.createdAt)
      requires wiring.Unbound? ==> uow.pool.free != {}
      modifies db`log, db`pending
      ensures raised == LateRefusal(old(db.log), r, faults)
      ensures raised.Some? ==> db.log == old(db.log) && db.pending == []
      ensures raised.None? && wiring.Bound? ==> db.log == old(db.log) && db.pending == [m]
      ensures raised.None? && wiring.Unbound? ==> db.log == old(db.log) + [m] && db.pending == []
    {
      if Decreases(r.kind) {
        if faults.lock || faults.sum {
          return Some(DatabaseError);
        }
        var stock := db.GetStockDirect(r.product);
        if !StockCheckPasses(r.kind, r.quantity, stock) {
          return Some(InsufficientStock);
        }
      }
      if faults.insert || m.quantity > MAX_INTEGER {
        return Some(DatabaseError);
      }
      if wiring.Bound? {
        db.pending := db.pending + [m];
      } else {
        db.log := db.log + [m];
      }
      raised := None;
    }

    /** The whole use case, for every fault pattern: which error leaves it, that a movement
        is returned if and only if nothing refuses it and the commit succeeds, that its row
        is in the log if and only if the caller was told so or, Unbound, the commit failed
        after the insert, and that the connection is lost if and only if start() raised.
        A call that waits for a connection returns only if there is one: an Unbound request
        that gets inside needs a second. */
    method Execute(r: Request, now: int, faults: Faults) returns (result: Result<Movement>)
      requires uow.db == db && uow.connection.None? && !uow.transaction && db.pending == [] && uow.pool.free != {}
      requires wiring.Unbound? && GetsInside(db.products, db.log, db.view, r, faults) ==> |uow.pool.free| >= 2
      modifies uow, uow.pool, db`log, db`pending
      ensures var refusal := Refusal(old(db.products), old(db.log), old(db.view), r, faults);
        && result == (if refusal.Some? then Failure(refusal.value)
                      else if faults.commit then Failure(DatabaseError) else Success(BuildMovement(r, now)))
        && db.log == (if refusal.None? && (wiring.Unbound? || !faults.commit) then old(db.log) + [BuildMovement(r, now)]
                      else old(db.log))
      ensures db.pending == []
      ensures
        if faults.start && !faults.acquire &&
          EarlyRefusal(old(db.products), old(db.log), old(db.view), r, faults).None? then
          uow.connection.Some? && uow.pool.free == old(uow.pool.free) - {uow.connection.value}
        else uow.pool.free == old(uow.pool.free) && uow.connection.None?
    {
      if faults.readProduct {
        return Failure(DatabaseError);
      }
      if r.product !in db.products {
        return Failure(ProductNotFound);
      }
      if Decreases(r.kind) {
        if faults.readStock {
          return Failure(DatabaseError);
        }
        var seen := db.GetCurrentStock(r.product);
        if !StockCheckPasses(r.kind, r.quantity, seen) {
          return Failure(InsufficientStock);
        }
      }
      if r.quantity <= 0 {
        return Failure(InvalidQuantity);
      }
      if !MetadataConsistent(r.kind, r.metadata) {
        return Failure(InconsistentMetadata);
      }
      var movement := BuildMovement(r, now);
      var notStarted := uow.Enter(faults.acquire, faults.start);
      if notStarted {
        return Failure(DatabaseError);
      }
      assert uow.pool.free + {uow.connection.value} == old(uow.pool.free);
      var raised := InsideTransaction(r, movement, faults);
      raised := uow.Exit(raised, if raised.None? then faults.commit else faults.rollback);
      result := if raised.Some? then Failure(raised.value) else Success(movement);
    }
  }

  // ---- The two checks against the one the business rule asks for ----

  /** The rule itself: the product exists, the quantity fits the column, a transfer names its
      origin and destination, an adjustment its reason, and the stock is not negative after
      an OUT or a TRANSFER. */
  ghost predicate OneCheck(products: set<ProductId>, log: seq<Movement>, r: Request) {
    && r.product in products
    && 0 < r.quantity <= 0x7fff_ffff
    && (r.kind == TRANSFER ==> "origin" in r.metadata && "destination" in r.metadata)
    && (r.kind == ADJUSTMENT ==> "reason" in r.metadata)
    && (r.kind == OUT || r.kind == TRANSFER ==> Stock(log, r.product) - r.quantity >= 0)
  }

  /** A view row that shows less than the order asks for. */
  ghost predicate ViewRefuses(view: Option<View>, r: Request) {
    (r.kind == OUT || r.kind == TRANSFER) && view.Some? && r.product in view.value && view.value[r.product] < r.quantity
  }

  /** The row is inserted if and only if the rules accept the request and no call that the
      request makes before the commit raises; faults never turn a refusal into a movement. */
  lemma InsertedExactly(products: set<ProductId>, log: seq<Movement>, view: Option<View>, r: Request, faults: Faults,
      now: int)
    ensures Refusal(products, log, view, r, faults).None? <==>
      && Outcome(products, log, view, r, now).Success?
      && !faults.readProduct && !faults.acquire && !faults.start && !faults.insert
      && (r.kind == OUT || r.kind == TRANSFER ==> !faults.readStock && !faults.lock && !faults.sum)
  {
  }

  /** For any view, acceptance means the rule holds and the view does not refuse; the movement
      is the request's own, dated now, and its row moves the stock of its product by the
      quantity, up for IN and ADJUSTMENT, down for OUT and TRANSFER. */
  lemma {:induction false} AcceptedExactly(
      products: set<ProductId>, log: seq<Movement>, view: Option<View>, r: Request, now: int)
    ensures var o := Outcome(products, log, view, r, now);
      && (o.Success? <==> OneCheck(products, log, r) && !ViewRefuses(view, r))
      && (o.Success? ==>
            && o.value == Movement(r.product, r.kind, r.quantity, r.metadata, now)
            && Stock(log + [o.value], r.product) == Stock(log, r.product) +
                 (if r.kind == IN || r.kind == ADJUSTMENT then r.quantity else -r.quantity)
            && (r.kind == OUT || r.kind == TRANSFER ==> Stock(log + [o.value], r.product) >= 0))
  {
    StockSnoc(log, BuildMovement(r, now), r.product);
  }

  /** For every view and every fault pattern: which error stops the request before its insert
      is committed, and when none does. */
  lemma RefusedExactly(products: set<ProductId>, log: seq<Movement>, view: Option<View>, r: Request, faults: Faults)
    ensures var refusal := Refusal(products, log, view, r, faults);
      var takes := r.kind == OUT || r.kind == TRANSFER;
      var seen := if view.Some? && r.product in view.value then view.value[r.product] else Stock(log, r.product);
      var fits := (r.kind == TRANSFER ==> "origin" in r.metadata && "destination" in r.metadata) &&
        (r.kind == ADJUSTMENT ==> "reason" in r.metadata);
      var found := !faults.readProduct && r.product in products;
      var checked := found && (takes ==> !faults.readStock && seen - r.quantity >= 0);
      var inside := checked && r.quantity > 0 && fits && !faults.acquire && !faults.start;
      var locked := inside && (takes ==> !faults.lock && !faults.sum);
      && (refusal == Some(ProductNotFound) <==> !faults.readProduct && r.product !in products)
      && (refusal == Some(InvalidQuantity) <==> checked && r.quantity <= 0)
      && (refusal == Some(InconsistentMetadata) <==> checked && r.quantity > 0 && !fits)
      && (refusal == Some(InsufficientStock) <==>
            || (found && takes && !faults.readStock && seen - r.quantity < 0)
            || (locked && takes && Stock(log, r.product) - r.quantity < 0))
      && (refusal == None <==>
            locked && (takes ==> Stock(log, r.product) - r.quantity >= 0) && !faults.insert &&
              r.quantity <= 0x7fff_ffff)
  {
  }

  /** With no view row, or an up-to-date one, the two checks decide exactly as the one. */
  lemma {:induction false} FreshViewRefinesOneCheck(products: set<ProductId>, log: seq<Movement>, view: Option<View>,
      r: Request, now: int)
    requires view.Some? && r.product in view.value ==> view.value[r.product] == Stock(log, r.product)
    ensures Outcome(products, log, view, r, now).Success? <==> OneCheck(products, log, r)
  {
    AcceptedExactly(products, log, view, r, now);
  }

  // ---- The program and the interleaved protocol agree ----

  function PcOf(o: Result<Movement>): Pc {
    match o
    case Success(_) => Done
    case Failure(e) => Failed(e)
  }

  /** A session of the protocol that runs alone ends as the sequential program answers. */
  lemma ExecutedIsOutcome(s: State, i: nat)
    requires i < |s.sessions| && s.sessions[i].pc.ReadProduct? && s.sessions[i].movement.None?
    ensures var o := Outcome(s.products, s.log, s.view, s.sessions[i].request, s.now);
      && Executed(s, i).sessions[i].pc == PcOf(o)
      && Executed(s, i).log == (if o.Success? then s.log + [o.value] else s.log)
  {
    var x := s.sessions[i];
    FirstPhaseUnrolled(s, x);
  }
}
