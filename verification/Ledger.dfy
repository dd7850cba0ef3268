/** The append-only movement log and the stock derived from it. */
module Ledger {

  type ProductId = int

  datatype MovementType = IN | OUT | ADJUSTMENT | TRANSFER

  /** One row of `movements`; the JSON metadata is kept as its set of keys. */
  datatype Movement = Movement(
    product: ProductId,
    kind: MovementType,
    quantity: int,
    metadata: set<string>,
    createdAt: int
  )

  predicate Decreases(kind: MovementType) {
    kind.OUT? || kind.TRANSFER?
  }

  function Delta(kind: MovementType, quantity: int): int {
    if kind.IN? || kind.ADJUSTMENT? then quantity else -quantity
  }

  /** The stock check: true when the movement may be recorded. */
  predicate StockCheckPasses(kind: MovementType, quantity: int, stock: int) {
    !(stock + Delta(kind, quantity) < 0)
  }

  predicate MetadataConsistent(kind: MovementType, metadata: set<string>) {
    !(kind.TRANSFER? && ("origin" !in metadata || "destination" !in metadata)) &&
    !(kind.ADJUSTMENT? && "reason" !in metadata)
  }

  function DeltaFor(m: Movement, p: ProductId): int {
    if m.product == p then Delta(m.kind, m.quantity) else 0
  }

  /** Stock is never stored: it is the signed sum of the log. */
  function Stock(log: seq<Movement>, p: ProductId): int {
    if log == [] then 0
    else Stock(log[..|log| - 1], p) + DeltaFor(log[|log| - 1], p)
  }

  function UpTo(log: seq<Movement>, d: int): seq<Movement> {
    if log == [] then []
    else UpTo(log[..|log| - 1], d) +
         (if log[|log| - 1].createdAt <= d then [log[|log| - 1]] else [])
  }

  /** `get_stock_at_date`: the signed sum of the rows with created_at <= d. */
  function StockAt(log: seq<Movement>, p: ProductId, d: int): int {
    Stock(UpTo(log, d), p)
  }

  /** What a row adds to the stock of p, kind by kind. */
  lemma SignedQuantities(log: seq<Movement>, m: Movement, p: ProductId)
    ensures Stock([], p) == 0
    ensures m.product != p ==> Stock(log + [m], p) == Stock(log, p)
    ensures m.product == p && m.kind == IN ==> Stock(log + [m], p) == Stock(log, p) + m.quantity
    ensures m.product == p && m.kind == OUT ==> Stock(log + [m], p) == Stock(log, p) - m.quantity
    ensures m.product == p && m.kind == ADJUSTMENT ==> Stock(log + [m], p) == Stock(log, p) + m.quantity
    ensures m.product == p && m.kind == TRANSFER ==> Stock(log + [m], p) == Stock(log, p) - m.quantity
    ensures Decreases(m.kind) <==> m.kind == OUT || m.kind == TRANSFER
  {
    StockSnoc(log, m, p);
  }

  lemma StockSnoc(log: seq<Movement>, m: Movement, p: ProductId)
    ensures Stock(log + [m], p) == Stock(log, p) + DeltaFor(m, p)
  {
    assert (log + [m])[..|log|] == log;
  }

  lemma {:induction false} StockConcat(a: seq<Movement>, b: seq<Movement>, p: ProductId)
    ensures Stock(a + b, p) == Stock(a, p) + Stock(b, p)
  {
    if b == [] {
      assert a + b == a;
    } else {
      var b' := b[..|b| - 1];
      assert a + b == (a + b') + [b[|b| - 1]];
      StockSnoc(a + b', b[|b| - 1], p);
      StockConcat(a, b', p);
    }
  }

  lemma UpToSnoc(log: seq<Movement>, m: Movement, d: int)
    ensures UpTo(log + [m], d) == UpTo(log, d) + (if m.createdAt <= d then [m] else [])
  {
    assert (log + [m])[..|log|] == log;
  }

  lemma StockWithout(b: seq<Movement>, k: nat, p: ProductId)
    requires k < |b|
    ensures var rest := b[..k] + b[k + 1..];
      multiset(rest) == multiset(b) - multiset{b[k]} && Stock(b, p) == Stock(rest, p) + DeltaFor(b[k], p)
  {
    var front, back := b[..k], b[k + 1..];
    assert b == (front + [b[k]]) + back;
    hide Stock, DeltaFor;
    StockConcat(front + [b[k]], back, p);
    StockSnoc(front, b[k], p);
    StockConcat(front, back, p);
  }

  /** The stock depends on the rows only, not on their order. */
  lemma {:induction false} StockOfPermutation(a: seq<Movement>, b: seq<Movement>, p: ProductId)
    requires multiset(a) == multiset(b)
    ensures Stock(a, p) == Stock(b, p)
    decreases |a|
  {
    if a == [] {
      assert |multiset(b)| == 0;
      assert b == [];
    } else {
      var m := a[|a| - 1];
      assert a == a[..|a| - 1] + [m];
      assert m in multiset(b);
      var k :| 0 <= k < |b| && b[k] == m;
      var rest := b[..k] + b[k + 1..];
      StockWithout(b, k, p);
      assert multiset(a[..|a| - 1]) == multiset(a) - multiset{m};
      StockOfPermutation(a[..|a| - 1], rest, p);
    }
  }
}
