/** The SQL behind the stock figures, as relational algebra on tables, and what it computes. */
module StockQueries {
  import opened Wrappers
  import opened Ledger
  import opened Protocol

  datatype Product = Product(id: ProductId, minStockThreshold: int)

  /** A row of `products p LEFT JOIN movements m ON m.product_id = p.id`; None is the null row. */
  datatype Joined = Joined(product: Product, movement: Option<Movement>)

  function Matching(p: Product, movements: seq<Movement>): seq<Joined> {
    if movements == [] then []
    else
      var m := movements[|movements| - 1];
      Matching(p, movements[..|movements| - 1]) + (if m.product == p.id then [Joined(p, Some(m))] else [])
  }

  function LeftJoin(products: seq<Product>, movements: seq<Movement>): seq<Joined> {
    if products == [] then []
    else
      var p := products[|products| - 1];
      var rows := Matching(p, movements);
      LeftJoin(products[..|products| - 1], movements) + (if rows == [] then [Joined(p, None)] else rows)
  }

  /** CASE m.movement_type WHEN ... ELSE 0 END: the null row falls to ELSE. */
  function CaseValue(row: Joined): int {
    match row.movement
    case None => 0
    case Some(m) =>
      match m.kind
      case IN => m.quantity
      case OUT => -m.quantity
      case ADJUSTMENT => m.quantity
      case TRANSFER => -m.quantity
  }

  /** SUM: NULL on no rows. */
  function SqlSum(rows: seq<Joined>): Option<int> {
    if rows == [] then None
    else Some(Coalesce(SqlSum(rows[..|rows| - 1]), 0) + CaseValue(rows[|rows| - 1]))
  }

  function Coalesce(v: Option<int>, default: int): int {
    if v.Some? then v.value else default
  }

  /** The rows of one group of GROUP BY p.id. */
  function GroupOf(rows: seq<Joined>, id: ProductId): seq<Joined> {
    if rows == [] then []
    else
      var row := rows[|rows| - 1];
      GroupOf(rows[..|rows| - 1], id) + (if row.product.id == id then [row] else [])
  }

  function Keys(rows: seq<Joined>): set<ProductId> {
    set row | row in rows :: row.product.id
  }

  /** The view query: one output row per group. */
  function ViewQuery(products: seq<Product>, movements: seq<Movement>): map<ProductId, int> {
    var rows := LeftJoin(products, movements);
    map id | id in Keys(rows) :: Coalesce(SqlSum(GroupOf(rows, id)), 0)
  }

  /** The low-stock query before LIMIT: the groups that pass HAVING. */
  function BelowThresholdQuery(products: seq<Product>, movements: seq<Movement>): set<Product> {
    var rows := LeftJoin(products, movements);
    set row | row in rows && Coalesce(SqlSum(GroupOf(rows, row.product.id)), 0) < row.product.minStockThreshold
      :: row.product
  }

  /** WHERE product_id = $1 on movements alone: no null row, so COALESCE does the work. */
  function DirectQuery(movements: seq<Movement>, id: ProductId): int {
    Coalesce(SqlSum(Matching(Product(id, 0), movements)), 0)
  }

  /** `id` is the primary key. */
  ghost predicate KeyedById(products: seq<Product>) {
    forall i, j :: 0 <= i < j < |products| ==> products[i].id != products[j].id
  }

  lemma SumConcat(a: seq<Joined>, row: Joined)
    ensures Coalesce(SqlSum(a + [row]), 0) == Coalesce(SqlSum(a), 0) + CaseValue(row)
  {
    assert (a + [row])[..|a|] == a;
  }

  lemma {:induction false} MatchingSum(p: Product, movements: seq<Movement>)
    ensures Coalesce(SqlSum(Matching(p, movements)), 0) == Stock(movements, p.id)
    ensures forall row :: row in Matching(p, movements) ==> row.product == p
  {
    if movements != [] {
      var m := movements[|movements| - 1];
      var rest := Matching(p, movements[..|movements| - 1]);
      MatchingSum(p, movements[..|movements| - 1]);
      SumConcat(rest, Joined(p, Some(m)));
      assert rest + [] == rest;
    }
  }

  lemma {:induction false} GroupConcat(a: seq<Joined>, b: seq<Joined>, id: ProductId)
    ensures GroupOf(a + b, id) == GroupOf(a, id) + GroupOf(b, id)
  {
    if b == [] {
      assert a + b == a;
    } else {
      var b' := b[..|b| - 1];
      assert (a + b)[..|a + b| - 1] == a + b';
      GroupConcat(a, b', id);
    }
  }

  lemma {:induction false} GroupAllOrNothing(rows: seq<Joined>, p: Product, id: ProductId)
    requires forall row :: row in rows ==> row.product == p
    ensures GroupOf(rows, id) == if p.id == id then rows else []
  {
    if rows != [] {
      assert rows == rows[..|rows| - 1] + [rows[|rows| - 1]];
      GroupAllOrNothing(rows[..|rows| - 1], p, id);
    }
  }

  /** The rows a product contributes to the join. */
  function Contribution(p: Product, movements: seq<Movement>): seq<Joined> {
    var rows := Matching(p, movements);
    if rows == [] then [Joined(p, None)] else rows
  }

  lemma ContributionSum(p: Product, movements: seq<Movement>)
    ensures Contribution(p, movements) != []
    ensures forall row :: row in Contribution(p, movements) ==> row.product == p
    ensures SqlSum(Contribution(p, movements)) == Some(Stock(movements, p.id))
  {
    MatchingSum(p, movements);
    SumConcat([], Joined(p, None));
    assert [] + [Joined(p, None)] == [Joined(p, None)];
  }

  /** Each group holds exactly its product's rows. */
  lemma KeyedFront(products: seq<Product>, i: nat)
    requires KeyedById(products) && i < |products|
    ensures var n := |products| - 1;
      && KeyedById(products[..n]) && (forall p :: p in products[..n] ==> p.id != products[n].id)
      && (i < n ==> products[n].id != products[i].id)
  {
  }

  lemma JoinLast(products: seq<Product>, movements: seq<Movement>)
    requires products != []
    ensures var n := |products| - 1;
      LeftJoin(products, movements) == LeftJoin(products[..n], movements) + Contribution(products[n], movements)
  {
  }

  lemma GroupOfLast(products: seq<Product>, movements: seq<Movement>, id: ProductId)
    requires products != []
    ensures var n := |products| - 1;
      GroupOf(LeftJoin(products, movements), id) ==
        GroupOf(LeftJoin(products[..n], movements), id) +
        (if products[n].id == id then Contribution(products[n], movements) else [])
  {
    var n := |products| - 1;
    ContributionSum(products[n], movements);
    JoinLast(products, movements);
    GroupConcat(LeftJoin(products[..n], movements), Contribution(products[n], movements), id);
    GroupAllOrNothing(Contribution(products[n], movements), products[n], id);
  }

  lemma {:induction false} GroupOfJoin(products: seq<Product>, movements: seq<Movement>, i: nat)
    requires KeyedById(products) && i < |products|
    ensures GroupOf(LeftJoin(products, movements), products[i].id) == Contribution(products[i], movements)
    decreases |products|
  {
    hide LeftJoin, Contribution, GroupOf, KeyedById;
    var n, id := |products| - 1, products[i].id;
    var before := GroupOf(LeftJoin(products[..n], movements), id);
    GroupOfLast(products, movements, id);
    KeyedFront(products, i);
    if i == n {
      NoGroup(products[..n], movements, id);
      assert before == [];
    } else {
      GroupOfJoin(products[..n], movements, i);
      assert before + [] == before;
    }
  }

  lemma {:induction false} NoGroup(products: seq<Product>, movements: seq<Movement>, id: ProductId)
    requires forall p :: p in products ==> p.id != id
    ensures GroupOf(LeftJoin(products, movements), id) == []
  {
    if products != [] {
      var n := |products| - 1;
      ContributionSum(products[n], movements);
      GroupConcat(LeftJoin(products[..n], movements), Contribution(products[n], movements), id);
      GroupAllOrNothing(Contribution(products[n], movements), products[n], id);
      NoGroup(products[..n], movements, id);
    }
  }

  lemma {:induction false} JoinedProducts(products: seq<Product>, movements: seq<Movement>)
    ensures forall p :: p in products <==> exists row :: row in LeftJoin(products, movements) && row.product == p
  {
    if products != [] {
      var n := |products| - 1;
      var p, rows := products[n], Contribution(products[n], movements);
      JoinedProducts(products[..n], movements);
      ContributionSum(p, movements);
      assert rows[0] in LeftJoin(products, movements) && rows[0].product == p;
      assert products == products[..n] + [p];
      forall q | q in products[..n]
        ensures exists row :: row in LeftJoin(products, movements) && row.product == q
      {
        var row :| row in LeftJoin(products[..n], movements) && row.product == q;
        assert row in LeftJoin(products, movements);
      }
      forall row | row in LeftJoin(products, movements) ensures row.product in products {
        if row in LeftJoin(products[..n], movements) {
          assert row.product in products[..n];
        } else {
          assert row in rows;
        }
      }
    }
  }

  /** The view has exactly one row per product and each is the signed sum of its movements. */
  lemma ViewQueryIsStock(products: seq<Product>, movements: seq<Movement>)
    requires KeyedById(products)
    ensures ViewQuery(products, movements) == ViewOf(set p | p in products :: p.id, movements)
  {
    JoinedProducts(products, movements);
    var rows := LeftJoin(products, movements);
    forall id ensures id in Keys(rows) <==> exists p :: p in products && p.id == id {
      if p :| p in products && p.id == id {
        var row :| row in rows && row.product == p;
        assert row.product.id == id;
      }
    }
    forall id | id in Keys(rows)
      ensures Coalesce(SqlSum(GroupOf(rows, id)), 0) == Stock(movements, id)
    {
      var i :| 0 <= i < |products| && products[i].id == id;
      GroupOfJoin(products, movements, i);
      ContributionSum(products[i], movements);
    }
  }

  /** The low-stock query selects exactly the products whose stock is below their threshold. */
  lemma BelowThresholdExactly(products: seq<Product>, movements: seq<Movement>, p: Product)
    requires KeyedById(products)
    ensures p in BelowThresholdQuery(products, movements) <==>
      p in products && Stock(movements, p.id) < p.minStockThreshold
  {
    JoinedProducts(products, movements);
    if p in products {
      var i :| 0 <= i < |products| && products[i] == p;
      GroupOfJoin(products, movements, i);
      ContributionSum(p, movements);
    }
  }

  /** All four readings agree, whatever order the tables are scanned in. */
  lemma ReadingsAgree(products: seq<Product>, movements: seq<Movement>, shuffled: seq<Movement>, p: Product)
    requires KeyedById(products) && p in products && multiset(movements) == multiset(shuffled)
    ensures DirectQuery(movements, p.id) == Stock(shuffled, p.id)
    ensures p.id in ViewQuery(products, shuffled) && ViewQuery(products, shuffled)[p.id] == DirectQuery(movements, p.id)
    ensures p in BelowThresholdQuery(products, shuffled) <==> DirectQuery(movements, p.id) < p.minStockThreshold
  {
    MatchingSum(Product(p.id, 0), movements);
    StockOfPermutation(movements, shuffled, p.id);
    ViewQueryIsStock(products, shuffled);
    BelowThresholdExactly(products, shuffled, p);
  }

  // ---- LIMIT ----

  ghost predicate DistinctRows(rows: seq<Product>) {
    forall i, j :: 0 <= i < j < |rows| ==> rows[i] != rows[j]
  }

  function MinInt(a: int, b: int): int {
    if a <= b then a else b
  }

  ghost predicate InOrder(groups: set<Product>, rows: seq<Product>) {
    DistinctRows(rows) && forall p :: p in rows <==> p in groups
  }

  /** The query has no ORDER BY: the answer is the beginning of the groups in any order. */
  ghost predicate LimitedAnswer(groups: set<Product>, limit: nat, answer: seq<Product>) {
    exists rows :: InOrder(groups, rows) && answer == rows[..MinInt(limit, |rows|)]
  }

  /** Distinct rows of the groups, as many as there are up to the limit. */
  ghost predicate Picked(groups: set<Product>, limit: nat, answer: seq<Product>) {
    DistinctRows(answer) && (forall p :: p in answer ==> p in groups) && |answer| == MinInt(limit, |groups|)
  }

  lemma {:induction false} RowsAndGroups(rows: seq<Product>, groups: set<Product>)
    requires InOrder(groups, rows)
    ensures |rows| == |groups|
  {
    if rows == [] {
      assert groups == {};
    } else {
      var n := |rows| - 1;
      assert forall p :: p in rows[..n] <==> p in groups - {rows[n]};
      RowsAndGroups(rows[..n], groups - {rows[n]});
    }
  }

  lemma {:induction false} InSomeOrder(groups: set<Product>) returns (rows: seq<Product>)
    ensures InOrder(groups, rows)
  {
    rows := [];
    if groups != {} {
      var p :| p in groups;
      rows := InSomeOrder(groups - {p});
      rows := rows + [p];
    }
  }

  lemma DistinctConcat(a: seq<Product>, b: seq<Product>)
    requires DistinctRows(a) && DistinctRows(b) && forall p :: p in b ==> p !in a
    ensures DistinctRows(a + b)
  {
    var c := a + b;
    forall i, j | 0 <= i < j < |c| ensures c[i] != c[j] {
      assert i < |a| ==> c[i] in a;
      assert j >= |a| ==> c[j] in b;
    }
  }

  lemma PickedExactly(groups: set<Product>, limit: nat, answer: seq<Product>)
    ensures LimitedAnswer(groups, limit, answer) <==> Picked(groups, limit, answer)
  {
    if LimitedAnswer(groups, limit, answer) {
      var rows :| InOrder(groups, rows) && answer == rows[..MinInt(limit, |rows|)];
      RowsAndGroups(rows, groups);
    }
    if Picked(groups, limit, answer) {
      var shown := set p | p in answer;
      var rest := InSomeOrder(groups - shown);
      var rows := answer + rest;
      DistinctConcat(answer, rest);
      assert forall p :: p in rows <==> p in groups;
      RowsAndGroups(rows, groups);
      assert answer == rows[..MinInt(limit, |rows|)];
    }
  }

  lemma AllShownExactly(groups: set<Product>, limit: nat, answer: seq<Product>)
    requires Picked(groups, limit, answer)
    ensures (forall p :: p in groups ==> p in answer) <==> |groups| <= limit
  {
    var shown := set p | p in answer;
    RowsAndGroups(answer, shown);
    assert groups == shown + (groups - shown);
    assert |groups| == |shown| + |groups - shown|;
    assert (forall p :: p in groups ==> p in answer) <==> groups - shown == {};
  }

  function LowStock(products: seq<Product>, movements: seq<Movement>): set<Product> {
    set p | p in products && Stock(movements, p.id) < p.minStockThreshold
  }

  /** What `list_below_threshold` may return: distinct products whose stock is below their
      threshold, as many as there are up to the limit; so all of them if and only if they
      are no more than the limit. */
  lemma LimitedAnswerExactly(products: seq<Product>, movements: seq<Movement>, limit: nat, answer: seq<Product>)
    requires KeyedById(products)
    ensures var low := LowStock(products, movements);
      var answers := LimitedAnswer(BelowThresholdQuery(products, movements), limit, answer);
      && (answers <==> Picked(low, limit, answer))
      && (answers ==> ((forall p :: p in low ==> p in answer) <==> |low| <= limit))
  {
    var low := LowStock(products, movements);
    var groups := BelowThresholdQuery(products, movements);
    forall p ensures p in groups <==> p in low {
      BelowThresholdExactly(products, movements, p);
    }
    assert groups == low;
    hide BelowThresholdQuery, LimitedAnswer, Picked, LowStock;
    PickedExactly(low, limit, answer);
    if LimitedAnswer(low, limit, answer) {
      AllShownExactly(low, limit, answer);
    }
  }

  // ---- float(row["stock"]) and the check on floats ----

  const EXACT := 0x20_0000_0000_0000  // 2^53

  /** The distance between neighbouring doubles at x. */
  function Ulp(x: nat): (u: nat)
    ensures u > 0 && x < EXACT * u && (u == 1 || (u % 2 == 0 && x >= EXACT / 2 * u))
  {
    if x < EXACT then 1 else 2 * Ulp(x / 2)
  }

  /** The multiple of u nearest to x, ties to even. */
  function NearestMultiple(x: nat, u: nat): int
    requires u > 0
  {
    var q, r := x / u, x % u;
    if 2 * r < u || (2 * r == u && q % 2 == 0) then q * u else (q + 1) * u
  }

  /** The double nearest to an integer. */
  function Nearest(x: nat): int {
    NearestMultiple(x, Ulp(x))
  }

  function Float(x: int): int {
    if x >= 0 then Nearest(x) else -Nearest(-x)
  }

  /** A multiple of the distance between doubles, no further than half of it, ties to even. */
  lemma NearestExactly(x: nat) returns (q: nat)
    ensures var u := Ulp(x);
      && Nearest(x) == q * u && 2 * (Nearest(x) - x) <= u && 2 * (x - Nearest(x)) <= u
      && (2 * (Nearest(x) - x) == u || 2 * (x - Nearest(x)) == u ==> q % 2 == 0)
      && (u == 1 <==> x < 0x20_0000_0000_0000)
  {
    hide NearestMultiple;
    q := MultipleExactly(x, Ulp(x));
  }

  lemma MultipleExactly(x: nat, u: nat) returns (q: nat)
    requires u > 0
    ensures var n := NearestMultiple(x, u);
      && n == q * u && 2 * (n - x) <= u && 2 * (x - n) <= u
      && (2 * (n - x) == u || 2 * (x - n) == u ==> q % 2 == 0)
  {
    q := x / u;
    var r, below := x % u, q * u;
    assert x == below + r;
    NextMultiple(q, u);
    if !(2 * r < u || (2 * r == u && q % 2 == 0)) {
      q := q + 1;
    }
  }

  lemma NextMultiple(q: nat, u: nat)
    ensures (q + 1) * u == q * u + u
  {
  }

  lemma NearestSmall(x: nat)
    requires x <= EXACT
    ensures Nearest(x) == x
  {
    if x == EXACT {
      assert Ulp(EXACT / 2) == 1;
      assert Ulp(x) == 2;
    }
  }

  lemma NearestLarge(x: nat)
    requires x >= EXACT
    ensures Nearest(x) >= EXACT
  {
    var u := Ulp(x);
    assert u >= 2;
    Quotient(x, u, EXACT / 2);
    MulAtLeast(x / u, u, EXACT / 2);
  }

  lemma Quotient(x: nat, u: nat, k: nat)
    requires u > 0 && x >= k * u
    ensures x / u >= k
  {
    var q := x / u;
    assert x < q * u + u == (q + 1) * u;
    if q + 1 <= k {
      MulAtLeast(k, u, q + 1);
    }
  }

  lemma MulAtLeast(q: nat, u: nat, k: nat)
    requires q >= k
    ensures q * u >= k * u && (q + 1) * u >= q * u
  {
    assert (q - k) * u >= 0;
    assert (q - k) * u == q * u - k * u;
  }

  /** The stock check as it runs: the sum as a float, the delta added as a float. */
  predicate FloatCheckPasses(kind: MovementType, quantity: int, stock: int) {
    !(Float(Float(stock) + Float(Delta(kind, quantity))) < 0)
  }

  /** Up to 2^53 nothing changes, and beyond it a float stays beyond. */
  lemma FloatRange(x: int)
    ensures -EXACT <= x <= EXACT ==> Float(x) == x
    ensures x >= EXACT ==> Float(x) >= EXACT
    ensures x <= -EXACT ==> Float(x) <= -EXACT
  {
    var m: nat := if x >= 0 then x else -x;
    if m <= EXACT {
      NearestSmall(m);
    } else {
      NearestLarge(m);
    }
  }

  /** Although floats hold integers exactly only up to 2^53, the check decides as on
      integers for every stock and every quantity below 2^53, so for every INTEGER one. */
  lemma {:induction false} FloatCheckDecidesExactly(kind: MovementType, quantity: int, stock: int)
    requires 0 < quantity < EXACT
    ensures FloatCheckPasses(kind, quantity, stock) <==> StockCheckPasses(kind, quantity, stock)
  {
    hide Float;
    FloatRange(stock);
    FloatRange(Delta(kind, quantity));
    FloatRange(Float(stock) + Float(Delta(kind, quantity)));
  }

  /** Above that it need not: 2^53 units of stock let 2^53 + 1 units go out. */
  lemma FloatCheckCanBeWrong()
    ensures FloatCheckPasses(OUT, EXACT + 1, EXACT) && !StockCheckPasses(OUT, EXACT + 1, EXACT)
  {
    NearestSmall(EXACT);
    assert Ulp((EXACT + 1) / 2) == 1 && Ulp(EXACT + 1) == 2;
    assert Nearest(EXACT + 1) == EXACT;
    NearestSmall(0);
  }

  ghost predicate ColumnsOk(log: seq<Movement>) {
    forall k :: 0 <= k < |log| ==> 1 <= log[k].quantity <= MAX_INTEGER
  }

  lemma {:induction false} StockBound(log: seq<Movement>, p: ProductId)
    requires ColumnsOk(log)
    ensures -(|log| * MAX_INTEGER) <= Stock(log, p) <= |log| * MAX_INTEGER
  {
    if log != [] {
      StockBound(log[..|log| - 1], p);
    }
  }

  /** Below 2^22 movements every partial sum, and the sum the check compares with zero,
      survives the conversion to a float unchanged. */
  lemma {:induction false} FloatsAreExact(log: seq<Movement>, p: ProductId, n: nat, kind: MovementType, quantity: int)
    requires ColumnsOk(log) && |log| < 0x40_0000 && n <= |log| && 1 <= quantity <= MAX_INTEGER
    ensures Float(Stock(log[..n], p)) == Stock(log[..n], p)
    ensures Float(Float(Stock(log[..n], p)) + Float(Delta(kind, quantity))) ==
      Stock(log[..n], p) + Delta(kind, quantity)
  {
    StockBound(log[..n], p);
    assert n * MAX_INTEGER <= 0x3f_ffff * MAX_INTEGER;
    assert -MAX_INTEGER <= Delta(kind, quantity) <= MAX_INTEGER;
    SmallSum(Stock(log[..n], p), Delta(kind, quantity));
  }

  lemma SmallSum(stock: int, delta: int)
    requires -EXACT <= stock <= EXACT && -EXACT <= delta <= EXACT && -EXACT <= stock + delta <= EXACT
    ensures Float(stock) == stock && Float(Float(stock) + Float(delta)) == stock + delta
  {
    FloatRange(stock);
    FloatRange(delta);
    FloatRange(stock + delta);
  }
}
