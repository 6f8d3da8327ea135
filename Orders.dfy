/** The orders routes: request validation, coalescing of repeated products, the all-or-nothing
    placement of an order, and the two read handlers. */
module Orders {
  import opened Wrappers
  import opened Strings
  import opened Sorting
  import opened Schema
  import opened Http

  /** One requested line `{ product_id, qty }`, after JSON decoding. */
  datatype LineRequest = LineRequest(productId: int, qty: int)

  /** The body `{ items: [...] }` of POST /orders. */
  datatype OrderRequest = OrderRequest(items: seq<LineRequest>)

  const NotPositive: string := "Number must be greater than 0"
  const NoItems: string := "Array must contain at least 1 element(s)"

  /** What the order schema accepts: at least one line, every id and quantity positive. */
  predicate ValidRequest(body: OrderRequest) {
    && |body.items| > 0
    && forall i :: 0 <= i < |body.items| ==> body.items[i].productId > 0 && body.items[i].qty > 0
  }

  /** The issues of the lines, in order: per line, product_id before qty. */
  function LineIssues(items: seq<LineRequest>): (issues: seq<Issue>)
    ensures issues == [] <==> forall i :: 0 <= i < |items| ==> items[i].productId > 0 && items[i].qty > 0
    ensures forall j :: 0 <= j < |issues| ==> issues[j].message == NotPositive
  {
    if items == [] then []
    else
      var n := |items| - 1;
      var prefix := LineIssues(items[..n]);
      assert forall i :: 0 <= i < n ==> items[..n][i] == items[i];
      prefix
      + (if items[n].productId > 0 then [] else [Issue([Field("items"), Index(n), Field("product_id")], NotPositive)])
      + (if items[n].qty > 0 then [] else [Issue([Field("items"), Index(n), Field("qty")], NotPositive)])
  }

  /** `createOrderSchema.parse`: the issues found, none exactly when the body is accepted. An
      empty array stops at the length check. */
  function RequestIssues(body: OrderRequest): (issues: seq<Issue>)
    ensures issues == [] <==> ValidRequest(body)
    ensures |body.items| == 0 ==> issues == [Issue([Field("items")], NoItems)]
  {
    if |body.items| == 0 then [Issue([Field("items")], NoItems)] else LineIssues(body.items)
  }

  // ----- Coalescing repeated product ids -----

  /** Total quantity requested for product `id`. */
  function QtyOf(items: seq<LineRequest>, id: int): int {
    if items == [] then 0
    else QtyOf(items[..|items| - 1], id) + (if items[|items| - 1].productId == id then items[|items| - 1].qty else 0)
  }

  function IdSet(items: seq<LineRequest>): set<int> {
    set i | 0 <= i < |items| :: items[i].productId
  }

  /** Sum over the lines of quantity times a per-product weight. */
  function Weighted(items: seq<LineRequest>, w: int -> int): int {
    if items == [] then 0
    else Weighted(items[..|items| - 1], w) + items[|items| - 1].qty * w(items[|items| - 1].productId)
  }

  /** Sum over the ids `ks` of the quantity requested for each times its weight. */
  function SumByKey(ks: seq<int>, items: seq<LineRequest>, w: int -> int): int {
    if ks == [] then 0
    else SumByKey(ks[..|ks| - 1], items, w) + QtyOf(items, ks[|ks| - 1]) * w(ks[|ks| - 1])
  }

  ghost predicate Distinct(ks: seq<int>) {
    forall i, j :: 0 <= i < j < |ks| ==> ks[i] != ks[j]
  }

  /** Adding one line to the request adds its weighted quantity to the sum over any distinct
      ids that include it, and nothing to one that does not. */
  lemma {:induction false} SumByKeyAppend(ks: seq<int>, items: seq<LineRequest>, x: LineRequest, w: int -> int)
    requires Distinct(ks)
    ensures SumByKey(ks, items + [x], w) == SumByKey(ks, items, w) + (if x.productId in ks then x.qty * w(x.productId) else 0)
  {
    if ks != [] {
      var n := |ks| - 1;
      var k := ks[n];
      assert (items + [x])[..|items|] == items;
      SumByKeyAppend(ks[..n], items, x, w);
      assert x.productId in ks <==> x.productId in ks[..n] || x.productId == k;
      assert x.productId == k ==> x.productId !in ks[..n];
      var a := QtyOf(items, k);
      var b := if x.productId == k then x.qty else 0;
      assert QtyOf(items + [x], k) == a + b;
      assert (a + b) * w(k) == a * w(k) + b * w(k);
    }
  }

  /** Summing per distinct id gives the same as summing per line. */
  lemma {:induction false} SumByKeyIsWeighted(ks: seq<int>, items: seq<LineRequest>, w: int -> int)
    requires Distinct(ks)
    requires IdSet(items) <= set k | k in ks
    ensures SumByKey(ks, items, w) == Weighted(items, w)
  {
    if items == [] {
      SumByKeyOfNothing(ks, w);
    } else {
      var n := |items| - 1;
      var pre := items[..n];
      assert items == pre + [items[n]];
      assert IdSet(pre) <= IdSet(items) by {
        forall k | k in IdSet(pre) ensures k in IdSet(items) {
          var i :| 0 <= i < |pre| && pre[i].productId == k;
          assert items[i].productId == k;
        }
      }
      SumByKeyIsWeighted(ks, pre, w);
      assert items[n].productId in IdSet(items);
      SumByKeyAppend(ks, pre, items[n], w);
    }
  }

  lemma {:induction false} SumByKeyOfNothing(ks: seq<int>, w: int -> int)
    ensures SumByKey(ks, [], w) == 0
  {
    if ks != [] {
      SumByKeyOfNothing(ks[..|ks| - 1], w);
    }
  }

  /** The line for each id, quantity summed, ids ascending. */
  function Coalesced(items: seq<LineRequest>): (d: seq<LineRequest>)
    ensures forall i, j :: 0 <= i < j < |d| ==> d[i].productId < d[j].productId
    ensures forall k :: k in IdSet(items) <==> exists j :: 0 <= j < |d| && d[j].productId == k
    ensures forall j :: 0 <= j < |d| ==> d[j].qty == QtyOf(items, d[j].productId)
  {
    var ks := AscendingKeys(IdSet(items));
    LinesForIds(ks, items);
    LinesForAscending(ks, items);
    LinesFor(ks, items)
  }

  lemma LinesForIds(ks: seq<int>, items: seq<LineRequest>)
    ensures forall k :: k in ks <==> exists j :: 0 <= j < |ks| && LinesFor(ks, items)[j].productId == k
  {
    var d := LinesFor(ks, items);
    forall k | k in ks ensures exists j :: 0 <= j < |ks| && d[j].productId == k {
      assert d[IndexOf(ks, k)].productId == k;
    }
  }

  lemma LinesForAscending(ks: seq<int>, items: seq<LineRequest>)
    requires StrictlyIncreasing(ks)
    ensures forall i, j :: 0 <= i < j < |ks| ==> LinesFor(ks, items)[i].productId < LinesFor(ks, items)[j].productId
  {
  }

  /** One line per key, carrying the quantity requested of it. */
  function LinesFor(ks: seq<int>, items: seq<LineRequest>): (d: seq<LineRequest>)
    ensures |d| == |ks|
    ensures forall j :: 0 <= j < |ks| ==> d[j] == LineRequest(ks[j], QtyOf(items, ks[j]))
  {
    seq(|ks|, j requires 0 <= j < |ks| => LineRequest(ks[j], QtyOf(items, ks[j])))
  }

  function IndexOf(ks: seq<int>, k: int): (j: nat)
    requires k in ks
    ensures j < |ks| && ks[j] == k
  {
    if ks[0] == k then 0 else 1 + IndexOf(ks[1..], k)
  }

  lemma {:induction false} WeightedOfLines(ks: seq<int>, items: seq<LineRequest>, w: int -> int)
    ensures Weighted(LinesFor(ks, items), w) == SumByKey(ks, items, w)
  {
    var d := LinesFor(ks, items);
    if ks != [] {
      var n := |ks| - 1;
      assert d[..n] == LinesFor(ks[..n], items);
      WeightedOfLines(ks[..n], items, w);
    }
  }

  /** Coalescing keeps every weighted total of the request: what is ordered of each product,
      what it costs at any price list. */
  lemma CoalescedWeighted(items: seq<LineRequest>, w: int -> int)
    ensures Weighted(Coalesced(items), w) == Weighted(items, w)
  {
    var ks := AscendingKeys(IdSet(items));
    WeightedOfLines(ks, items, w);
    assert Distinct(ks);
    SumByKeyIsWeighted(ks, items, w);
  }

  lemma {:induction false} QtyOfIsWeighted(items: seq<LineRequest>, k: int)
    ensures QtyOf(items, k) == Weighted(items, x => if x == k then 1 else 0)
  {
    if items != [] {
      QtyOfIsWeighted(items[..|items| - 1], k);
    }
  }

  /** Each product's requested quantity is the same before and after coalescing. */
  lemma CoalescedQty(items: seq<LineRequest>, k: int)
    ensures QtyOf(Coalesced(items), k) == QtyOf(items, k)
  {
    QtyOfIsWeighted(items, k);
    QtyOfIsWeighted(Coalesced(items), k);
    CoalescedWeighted(items, x => if x == k then 1 else 0);
  }

  /** Two requests asking for the same quantity of every product coalesce alike. */
  lemma CoalescedDependsOnTotalsOnly(a: seq<LineRequest>, b: seq<LineRequest>)
    requires IdSet(a) == IdSet(b)
    requires forall k :: k in IdSet(a) ==> QtyOf(a, k) == QtyOf(b, k)
    ensures Coalesced(a) == Coalesced(b)
  {
  }

  lemma {:induction false} QtyOfAbsent(items: seq<LineRequest>, k: int)
    requires k !in IdSet(items)
    ensures QtyOf(items, k) == 0
  {
    if items != [] {
      var n := |items| - 1;
      assert IdSet(items[..n]) <= IdSet(items) by {
        forall x | x in IdSet(items[..n]) ensures x in IdSet(items) {
          var i :| 0 <= i < n && items[..n][i].productId == x;
          assert items[i].productId == x;
        }
      }
      QtyOfAbsent(items[..n], k);
    }
  }

  lemma {:induction false} QtyOfPositive(items: seq<LineRequest>, k: int)
    requires forall i :: 0 <= i < |items| ==> items[i].qty > 0
    requires k in IdSet(items)
    ensures QtyOf(items, k) > 0
  {
    var n := |items| - 1;
    var pre := items[..n];
    if k in IdSet(pre) {
      QtyOfPositive(pre, k);
      QtyOfNonNegative(pre, k);
    } else {
      QtyOfAbsent(pre, k);
      forall j | 0 <= j < n ensures items[j].productId != k {
        assert pre[j].productId in IdSet(pre);
      }
    }
  }

  lemma {:induction false} QtyOfNonNegative(items: seq<LineRequest>, k: int)
    requires forall i :: 0 <= i < |items| ==> items[i].qty > 0
    ensures QtyOf(items, k) >= 0
  {
    if items != [] {
      QtyOfNonNegative(items[..|items| - 1], k);
    }
  }

  lemma IdSetExtend(items: seq<LineRequest>, i: int)
    requires 0 <= i < |items|
    ensures IdSet(items[..i + 1]) == IdSet(items[..i]) + {items[i].productId}
  {
    var a, b := items[..i], items[..i + 1];
    forall k | k in IdSet(b) ensures k in IdSet(a) + {items[i].productId} {
      var j :| 0 <= j <= i && b[j].productId == k;
      if j < i {
        assert a[j].productId == k;
      }
    }
    forall k | k in IdSet(a) ensures k in IdSet(b) {
      var j :| 0 <= j < i && a[j].productId == k;
      assert b[j].productId == k;
    }
    assert b[i].productId == items[i].productId;
  }

  lemma QtyOfExtend(items: seq<LineRequest>, i: int)
    requires 0 <= i < |items|
    ensures forall k :: QtyOf(items[..i + 1], k) == QtyOf(items[..i], k) + (if items[i].productId == k then items[i].qty else 0)
  {
    assert items[..i + 1][..i] == items[..i];
  }

  /** Object.values of an object with integer keys: the values by ascending key. */
  function ObjectValues(acc: map<int, LineRequest>): seq<LineRequest> {
    var ks := AscendingKeys(acc.Keys);
    seq(|ks|, j requires 0 <= j < |ks| => acc[ks[j]])
  }

  lemma ValuesAreCoalesced(acc: map<int, LineRequest>, items: seq<LineRequest>)
    requires acc.Keys == IdSet(items)
    requires forall k :: k in acc ==> acc[k] == LineRequest(k, QtyOf(items, k))
    ensures ObjectValues(acc) == Coalesced(items)
  {
  }

  /** The reduce over the request into an object keyed by product id, then Object.values:
      integer keys come out ascending. */
  method Coalesce(items: seq<LineRequest>) returns (deduped: seq<LineRequest>)
    ensures deduped == Coalesced(items)
  {
    var acc: map<int, LineRequest> := map[];
    var i := 0;
    while i < |items|
      invariant 0 <= i <= |items|
      invariant acc.Keys == IdSet(items[..i])
      invariant forall k :: k in acc ==> acc[k] == LineRequest(k, QtyOf(items[..i], k))
    {
      var item := items[i];
      IdSetExtend(items, i);
      QtyOfExtend(items, i);
      if item.productId in acc {
        acc := acc[item.productId := acc[item.productId].(qty := acc[item.productId].qty + item.qty)];
      } else {
        QtyOfAbsent(items[..i], item.productId);
        acc := acc[item.productId := item];
      }
      i := i + 1;
    }
    assert items[..i] == items;
    deduped := ObjectValues(acc);
    ValuesAreCoalesced(acc, items);
  }

  // ----- Deciding an order -----

  /** The line can be served: its product exists and has enough stock. */
  predicate Passes(line: LineRequest, products: map<int, Product>) {
    line.productId in products && products[line.productId].stockQty >= line.qty
  }

  function NotFound(productId: int): Thrown {
    Error("Product " + IntToString(productId) + " not found", Some(404))
  }

  function OutOfStock(p: Product): Thrown {
    Error("Insufficient stock for \"" + p.name + "\" (available: " + IntToString(p.stockQty) + ")", Some(409))
  }

  /** Why a line cannot be served. */
  function Rejection(line: LineRequest, products: map<int, Product>): Thrown
    requires !Passes(line, products)
  {
    if line.productId !in products then NotFound(line.productId) else OutOfStock(products[line.productId])
  }

  /** The rejection of the first line that cannot be served, if any. */
  function FirstRejection(d: seq<LineRequest>, products: map<int, Product>): (r: Option<Thrown>)
    ensures r.None? <==> forall j :: 0 <= j < |d| ==> Passes(d[j], products)
    ensures r.Some? ==> r.value.Error? && r.value.status in {Some(404), Some(409)}
  {
    if d == [] then None
    else if !Passes(d[0], products) then Some(Rejection(d[0], products))
    else
      var r := FirstRejection(d[1..], products);
      assert forall j :: 1 <= j < |d| ==> d[j] == d[1..][j - 1];
      r
  }

  /** When lines before `j` pass and line `j` does not, the first rejection is line `j`'s. */
  lemma {:induction false} FirstRejectionAt(d: seq<LineRequest>, products: map<int, Product>, j: int)
    requires 0 <= j < |d|
    requires forall i :: 0 <= i < j ==> Passes(d[i], products)
    requires !Passes(d[j], products)
    ensures FirstRejection(d, products) == Some(Rejection(d[j], products))
  {
    if j > 0 {
      assert d[1..][j - 1] == d[j];
      FirstRejectionAt(d[1..], products, j - 1);
    }
  }

  /** The product ids can be bound to the INTEGER[] parameter of the locking SELECT. */
  predicate IdsBind(d: seq<LineRequest>) {
    forall j :: 0 <= j < |d| ==> InInt4(d[j].productId)
  }

  /** What POST /orders makes of the body before looking at the catalog: the schema issues,
      or a product id the database cannot bind, or the coalesced lines. */
  function Admission(body: OrderRequest): Result<seq<LineRequest>, Thrown> {
    var issues := RequestIssues(body);
    if issues != [] then Err(ValidationError(issues))
    else
      var d := Coalesced(body.items);
      if !IdsBind(d) then Err(IntegerOutOfRange) else Ok(d)
  }

  /** The parse, the coalescing loop and the binding of the product ids, run in that order. */
  method Admit(body: OrderRequest) returns (r: Result<seq<LineRequest>, Thrown>)
    ensures r == Admission(body)
  {
    var issues := RequestIssues(body);
    if issues != [] {
      return Err(ValidationError(issues));
    }
    var deduped := Coalesce(body.items);
    if !IdsBind(deduped) {
      return Err(IntegerOutOfRange);
    }
    return Ok(deduped);
  }

  datatype Decision = Reject(err: Thrown) | Accept(lines: seq<LineRequest>)

  /** What POST /orders decides against the catalog it locks: an admission error, the first
      unserviceable line, or the coalesced lines. */
  function Decide(body: OrderRequest, products: map<int, Product>): (dec: Decision)
    ensures dec.Accept? ==> ValidRequest(body) && dec.lines == Coalesced(body.items)
    ensures dec.Accept? ==> forall j :: 0 <= j < |dec.lines| ==> Passes(dec.lines[j], products)
  {
    match Admission(body)
    case Err(e) => Reject(e)
    case Ok(d) =>
      match FirstRejection(d, products)
      case Some(e) => Reject(e)
      case None => Accept(d)
  }

  /** A rejected order is answered 400 (invalid body), 404 (unknown product), 409 (short
      stock) or 500 (a product id out of the INTEGER range). */
  lemma RejectionStatus(body: OrderRequest, products: map<int, Product>)
    requires Decide(body, products).Reject?
    ensures ErrorHandler(Decide(body, products).err).status in {400, 404, 409, 500}
    ensures ErrorHandler(Decide(body, products).err).status == 400 <==> !ValidRequest(body)
  {
    var err := Decide(body, products).err;
    var issues := RequestIssues(body);
    if issues != [] {
      assert err == ValidationError(issues);
    } else if !IdsBind(Coalesced(body.items)) {
      assert err == IntegerOutOfRange;
    } else {
      var r := FirstRejection(Coalesced(body.items), products);
      assert r.Some? && err == r.value;
    }
  }

  /** Every product of an accepted order exists, fits an INTEGER and has the total quantity
      requested of it in stock. */
  lemma AcceptedOnlyWhenStocked(body: OrderRequest, products: map<int, Product>, k: int)
    requires Decide(body, products).Accept?
    requires k in IdSet(body.items)
    ensures InInt4(k) && k in products && products[k].stockQty >= QtyOf(body.items, k)
  {
    var d := Coalesced(body.items);
    var j :| 0 <= j < |d| && d[j].productId == k;
    assert Passes(d[j], products);
    assert IdsBind(d);
  }

  /** A valid body whose every product exists, fits an INTEGER and is stocked is accepted. */
  lemma AcceptedWhenStocked(body: OrderRequest, products: map<int, Product>)
    requires ValidRequest(body)
    requires forall k :: k in IdSet(body.items) ==>
      InInt4(k) && k in products && products[k].stockQty >= QtyOf(body.items, k)
    ensures Decide(body, products).Accept?
  {
    var d := Coalesced(body.items);
    forall j | 0 <= j < |d| ensures InInt4(d[j].productId) && Passes(d[j], products) {
      assert d[j].productId in IdSet(body.items);
    }
    assert RequestIssues(body) == [];
    assert IdsBind(d);
    assert FirstRejection(d, products).None?;
  }

  /** An order is accepted exactly when the body is valid and every product it names exists,
      fits an INTEGER, and has at least the total quantity requested of it in stock. */
  lemma AcceptedIff(body: OrderRequest, products: map<int, Product>)
    ensures Decide(body, products).Accept? <==>
      && ValidRequest(body)
      && forall k :: k in IdSet(body.items) ==>
           InInt4(k) && k in products && products[k].stockQty >= QtyOf(body.items, k)
  {
    if Decide(body, products).Accept? {
      forall k | k in IdSet(body.items)
        ensures InInt4(k) && k in products && products[k].stockQty >= QtyOf(body.items, k)
      {
        AcceptedOnlyWhenStocked(body, products, k);
      }
    } else if ValidRequest(body) && forall k :: k in IdSet(body.items) ==>
         InInt4(k) && k in products && products[k].stockQty >= QtyOf(body.items, k) {
      AcceptedWhenStocked(body, products);
    }
  }

  // ----- The effect of an accepted order -----

  function PriceOf(products: map<int, Product>, id: int): int {
    if id in products then products[id].priceCents else 0
  }

  /** The order_items rows of order `orderId`, numbered from `firstItemId`, each line priced at
      its product's current price. */
  function OrderLines(d: seq<LineRequest>, products: map<int, Product>, orderId: int, firstItemId: int): seq<OrderItem> {
    seq(|d|, j requires 0 <= j < |d| => OrderItem(firstItemId + j, orderId, d[j].productId, d[j].qty, PriceOf(products, d[j].productId)))
  }

  /** The catalog after each product's stock is reduced by the quantity requested of it. */
  function StockAfter(products: map<int, Product>, items: seq<LineRequest>): map<int, Product> {
    map k | k in products :: products[k].(stockQty := products[k].stockQty - QtyOf(items, k))
  }

  /** An accepted order never asks for more than a product holds. */
  lemma AcceptedStockSuffices(body: OrderRequest, products: map<int, Product>, k: int)
    requires Decide(body, products).Accept?
    requires k in products && products[k].stockQty >= 0
    ensures 0 <= QtyOf(body.items, k) <= products[k].stockQty
  {
    var d := Coalesced(body.items);
    if k in IdSet(body.items) {
      var j :| 0 <= j < |d| && d[j].productId == k;
      assert Passes(d[j], products);
      QtyOfNonNegative(body.items, k);
    } else {
      QtyOfAbsent(body.items, k);
    }
  }

  /** The catalog after an accepted order still meets its constraints: no stock goes
      negative, and nothing but stock changes. */
  lemma StockAfterOk(body: OrderRequest, products: map<int, Product>, nextProductId: int, clock: nat, later: nat)
    requires ProductsOk(products, nextProductId, clock) && clock <= later
    requires Decide(body, products).Accept?
    ensures ProductsOk(StockAfter(products, body.items), nextProductId, later)
  {
    var after := StockAfter(products, body.items);
    forall k | k in after
      ensures after[k].id == k && 1 <= k < nextProductId && after[k].createdAt < later && ProductRowOk(after[k])
    {
      AcceptedStockSuffices(body, products, k);
    }
    assert SkusUnique(after) by {
      assert forall k :: k in after ==> after[k].sku == products[k].sku;
    }
  }

  /** The new order_items rows meet their constraints and keep the table's invariants. */
  lemma NewLinesOk(items: seq<OrderItem>, orders: map<int, Order>, products: map<int, Product>, nextItemId: int,
                   d: seq<LineRequest>, orderId: int, orders': map<int, Order>, products': map<int, Product>)
    requires ItemsOk(items, orders, products, nextItemId) && 1 <= nextItemId
    requires forall k :: k in products ==> ProductRowOk(products[k])
    requires forall j :: 0 <= j < |d| ==> Passes(d[j], products) && d[j].qty > 0
    requires orders.Keys <= orders'.Keys && orderId in orders' && products'.Keys == products.Keys
    ensures ItemsOk(items + OrderLines(d, products, orderId, nextItemId), orders', products', nextItemId + |d|)
  {
    ItemsOkWider(items, orders, orders', products, products', nextItemId, nextItemId + |d|);
    var all := items + OrderLines(d, products, orderId, nextItemId);
    forall i | |items| <= i < |all|
      ensures ItemRowOk(all[i]) && all[i].orderId in orders' && all[i].productId in products'
      ensures 1 <= all[i].id < nextItemId + |d|
    {
      var j := i - |items|;
      assert Passes(d[j], products);
      assert all[i] == OrderItem(nextItemId + j, orderId, d[j].productId, d[j].qty, products[d[j].productId].priceCents);
    }
    forall i, j | 0 <= i < j < |all| ensures all[i].id < all[j].id {
      if j >= |items| && i < |items| {
        assert all[i] == items[i];
      }
    }
  }

  /** Each product's stock after the order plus the quantity recorded for it in the new order
      lines is its stock before. */
  lemma StockIsConserved(products: map<int, Product>, items: seq<LineRequest>, k: int)
    requires k in products
    ensures StockAfter(products, items)[k].stockQty + QtyOf(Coalesced(items), k) == products[k].stockQty
  {
    CoalescedQty(items, k);
  }

  /** Products the order does not name keep their row unchanged. */
  lemma UnrequestedUntouched(products: map<int, Product>, items: seq<LineRequest>, k: int)
    requires k in products && k !in IdSet(items)
    ensures StockAfter(products, items)[k] == products[k]
  {
    QtyOfAbsent(items, k);
  }

  /** Stock reduced line by line along the coalesced lines is stock reduced by the request. */
  lemma StockAfterCoalesced(products: map<int, Product>, items: seq<LineRequest>)
    ensures StockAfter(products, Coalesced(items)) == StockAfter(products, items)
  {
    forall k | k in products {
      CoalescedQty(items, k);
    }
  }

  /** Two valid requests that ask for the same total of every product are decided alike and,
      when accepted, commit the same state: only the per-product totals of a request matter. */
  lemma SameTotalsSameOutcome(t: Tables, a: OrderRequest, b: OrderRequest)
    requires ValidRequest(a) && ValidRequest(b)
    requires IdSet(a.items) == IdSet(b.items)
    requires forall k :: k in IdSet(a.items) ==> QtyOf(a.items, k) == QtyOf(b.items, k)
    ensures Decide(a, t.products) == Decide(b, t.products)
    ensures Placed(t, a) == Placed(t, b)
  {
    CoalescedDependsOnTotalsOnly(a.items, b.items);
    StockAfterCoalesced(t.products, a.items);
    StockAfterCoalesced(t.products, b.items);
  }

  lemma AddOrderOk(orders: map<int, Order>, nextOrderId: int, clock: nat)
    requires OrdersOk(orders, nextOrderId, clock) && 1 <= nextOrderId
    ensures OrdersOk(orders[nextOrderId := Order(nextOrderId, clock)], nextOrderId + 1, clock + 1)
  {
  }

  /** The rows the locking SELECT returns, by id. */
  function Locked(products: map<int, Product>, d: seq<LineRequest>): map<int, Product> {
    map k | k in products && k in IdSet(d) :: products[k]
  }

  /** Two catalogs that agree on the products the lines name reject the lines alike. */
  lemma {:induction false} FirstRejectionAgrees(d: seq<LineRequest>, p: map<int, Product>, q: map<int, Product>)
    requires forall j :: 0 <= j < |d| ==>
      (d[j].productId in p <==> d[j].productId in q) && (d[j].productId in p ==> p[d[j].productId] == q[d[j].productId])
    ensures FirstRejection(d, p) == FirstRejection(d, q)
  {
    if d != [] {
      assert forall j :: 1 <= j < |d| ==> d[1..][j - 1] == d[j];
      FirstRejectionAgrees(d[1..], p, q);
    }
  }

  /** The locked rows decide the lines as the whole catalog would. */
  lemma LockedAgrees(products: map<int, Product>, d: seq<LineRequest>)
    ensures FirstRejection(d, Locked(products, d)) == FirstRejection(d, products)
  {
    forall j | 0 <= j < |d| ensures d[j].productId in IdSet(d) {
    }
    FirstRejectionAgrees(d, Locked(products, d), products);
  }

  /** Pricing the lines from the locked rows is pricing them from the catalog. */
  lemma LockedPrices(products: map<int, Product>, d: seq<LineRequest>, orderId: int, firstItemId: int)
    ensures OrderLines(d, Locked(products, d), orderId, firstItemId) == OrderLines(d, products, orderId, firstItemId)
  {
    forall j | 0 <= j < |d| ensures PriceOf(Locked(products, d), d[j].productId) == PriceOf(products, d[j].productId) {
      assert d[j].productId in IdSet(d);
    }
  }

  /** The check loop over the locked rows: the first line whose product is missing or short. */
  method CheckStock(deduped: seq<LineRequest>, productMap: map<int, Product>) returns (r: Option<Thrown>)
    ensures r == FirstRejection(deduped, productMap)
  {
    var i := 0;
    while i < |deduped|
      invariant 0 <= i <= |deduped|
      invariant forall j :: 0 <= j < i ==> Passes(deduped[j], productMap)
    {
      var item := deduped[i];
      if item.productId !in productMap {
        FirstRejectionAt(deduped, productMap, i);
        return Some(NotFound(item.productId));
      }
      var product := productMap[item.productId];
      if product.stockQty < item.qty {
        FirstRejectionAt(deduped, productMap, i);
        return Some(OutOfStock(product));
      }
      i := i + 1;
    }
    return None;
  }

  /** The insert loop: one order_items row per line at the locked price, and the stock
      decrement of its product. */
  method WriteLines(deduped: seq<LineRequest>, productMap: map<int, Product>, products: map<int, Product>,
                    orderId: int, firstItemId: int)
    returns (lines: seq<OrderItem>, table: map<int, Product>)
    requires forall j :: 0 <= j < |deduped| ==> Passes(deduped[j], productMap) && deduped[j].productId in products
    ensures lines == OrderLines(deduped, productMap, orderId, firstItemId)
    ensures table == StockAfter(products, deduped)
  {
    lines, table := [], products;
    var itemId := firstItemId;
    var i := 0;
    while i < |deduped|
      invariant 0 <= i <= |deduped|
      invariant itemId == firstItemId + i
      invariant lines == OrderLines(deduped[..i], productMap, orderId, firstItemId)
      invariant table == StockAfter(products, deduped[..i])
    {
      var item := deduped[i];
      var product := productMap[item.productId];
      lines := lines + [OrderItem(itemId, orderId, item.productId, item.qty, product.priceCents)];
      itemId := itemId + 1;
      table := table[item.productId := table[item.productId].(stockQty := table[item.productId].stockQty - item.qty)];
      QtyOfExtend(deduped, i);
      i := i + 1;
    }
    assert deduped[..i] == deduped;
  }

  /** The state an accepted order commits: the order row stamped with the clock, one item per
      coalesced line at the product's current price, the stock decrements, and one tick. */
  function Placed(t: Tables, body: OrderRequest): Tables {
    var d := Coalesced(body.items);
    t.(products := StockAfter(t.products, body.items),
       orders := t.orders[t.nextOrderId := Order(t.nextOrderId, t.clock)],
       items := t.items + OrderLines(d, t.products, t.nextOrderId, t.nextItemId),
       nextOrderId := t.nextOrderId + 1,
       nextItemId := t.nextItemId + |d|,
       clock := t.clock + 1)
  }

  /** An accepted order keeps every table constraint: no stock goes negative, every new item
      references the new order and an existing product, item ids keep increasing. */
  lemma PlacementOk(t: Tables, body: OrderRequest)
    requires TablesOk(t)
    requires Decide(body, t.products).Accept?
    ensures TablesOk(Placed(t, body))
  {
    StockAfterOk(body, t.products, t.nextProductId, t.clock, t.clock + 1);
    AddOrderOk(t.orders, t.nextOrderId, t.clock);
    var d := Coalesced(body.items);
    forall j | 0 <= j < |d| ensures d[j].qty > 0 {
      QtyOfPositive(body.items, d[j].productId);
    }
    NewLinesOk(t.items, t.orders, t.products, t.nextItemId, d, t.nextOrderId,
               t.orders[t.nextOrderId := Order(t.nextOrderId, t.clock)], StockAfter(t.products, body.items));
  }

  /** The writes of an order whose lines all pass: the order row, then per line the item row
      and the stock decrement. */
  method Fulfil(body: OrderRequest, deduped: seq<LineRequest>, productMap: map<int, Product>, t: Tables)
    returns (t': Tables)
    requires deduped == Coalesced(body.items)
    requires productMap == Locked(t.products, deduped)
    requires forall j :: 0 <= j < |deduped| ==> Passes(deduped[j], productMap) && deduped[j].productId in t.products
    ensures t' == Placed(t, body)
  {
    var order := Order(t.nextOrderId, t.clock);
    var lines, table := WriteLines(deduped, productMap, t.products, order.id, t.nextItemId);
    LockedPrices(t.products, deduped, order.id, t.nextItemId);
    StockAfterCoalesced(t.products, body.items);
    t' := t.(products := table, orders := t.orders[order.id := order], items := t.items + lines,
             nextOrderId := order.id + 1, nextItemId := t.nextItemId + |deduped|, clock := t.clock + 1);
  }

  /** The work of POST /orders between BEGIN and COMMIT or ROLLBACK, on the state `t` it
      starts from: the response, and the state to commit (none on rollback). */
  method Transaction(body: OrderRequest, t: Tables) returns (res: Response, commit: Option<Tables>)
    ensures Decide(body, t.products).Reject? ==>
      commit.None? && res == ErrorHandler(Decide(body, t.products).err)
    ensures Decide(body, t.products).Accept? ==>
      commit == Some(Placed(t, body)) && res == Response(201, CreatedOrderJson(t.nextOrderId, t.clock))
  {
    var admitted := Admit(body);
    if admitted.Err? {
      return ErrorHandler(admitted.error), None;
    }
    var deduped := admitted.value;
    var productMap := Locked(t.products, deduped);
    var rejection := CheckStock(deduped, productMap);
    LockedAgrees(t.products, deduped);
    if rejection.Some? {
      return ErrorHandler(rejection.value), None;
    }
    var placed := Fulfil(body, deduped, productMap, t);
    commit := Some(placed);
    res := Response(201, CreatedOrderJson(t.nextOrderId, t.clock));
  }

  /** POST /orders against the store: all-or-nothing. */
  method PlaceOrder(db: Store, body: OrderRequest) returns (res: Response)
    requires db.Valid()
    modifies db
    ensures db.Valid()
    ensures Decide(body, old(db.products)).Reject? ==>
      res == ErrorHandler(Decide(body, old(db.products)).err) && unchanged(db)
    ensures Decide(body, old(db.products)).Accept? ==>
      && res == Response(201, CreatedOrderJson(old(db.nextOrderId), old(db.clock)))
      && db.State() == Placed(old(db.State()), body)
  {
    var commit;
    res, commit := Transaction(body, db.State());
    if commit.Some? {
      PlacementOk(db.State(), body);
      db.Commit(commit.value);
    }
  }

  // ----- Reading orders -----

  /** The order's items joined with their products, in table order. */
  function ItemViews(items: seq<OrderItem>, products: map<int, Product>, orderId: int): seq<ItemView> {
    if items == [] then []
    else
      var it := items[|items| - 1];
      ItemViews(items[..|items| - 1], products, orderId)
      + (if it.orderId == orderId && it.productId in products
         then [ItemView(it.id, it.qty, it.priceAtPurchase, products[it.productId].name, products[it.productId].sku, it.productId)]
         else [])
  }

  /** The reduce over the detail lines: quantity times price paid, summed. */
  function ViewsTotal(vs: seq<ItemView>): int {
    if vs == [] then 0 else ViewsTotal(vs[..|vs| - 1]) + vs[|vs| - 1].qty * vs[|vs| - 1].priceAtPurchase
  }

  /** SUM(qty * price_at_purchase) over the order's items, exactly. */
  function OrderTotal(items: seq<OrderItem>, orderId: int): int {
    if items == [] then 0
    else
      var it := items[|items| - 1];
      OrderTotal(items[..|items| - 1], orderId) + (if it.orderId == orderId then it.qty * it.priceAtPurchase else 0)
  }

  /** SUM(qty) over the order's items, exactly. */
  function ItemCount(items: seq<OrderItem>, orderId: int): int {
    if items == [] then 0
    else
      var it := items[|items| - 1];
      ItemCount(items[..|items| - 1], orderId) + (if it.orderId == orderId then it.qty else 0)
  }

  /** When every item's product exists, the joined detail lines add up to the order total. */
  lemma {:induction false} ViewsTotalIsOrderTotal(items: seq<OrderItem>, products: map<int, Product>, orderId: int)
    requires forall i :: 0 <= i < |items| ==> items[i].productId in products
    ensures ViewsTotal(ItemViews(items, products, orderId)) == OrderTotal(items, orderId)
  {
    if items != [] {
      var n := |items| - 1;
      ViewsTotalIsOrderTotal(items[..n], products, orderId);
      var pre := ItemViews(items[..n], products, orderId);
      var it := items[n];
      assert items[..n] == items[..|items| - 1];
      if it.orderId == orderId {
        var view := ItemView(it.id, it.qty, it.priceAtPurchase, products[it.productId].name, products[it.productId].sku, it.productId);
        assert ItemViews(items, products, orderId) == pre + [view];
        ViewsTotalSnoc(pre, view);
      } else {
        assert ItemViews(items, products, orderId) == pre + [];
        assert pre + [] == pre;
      }
    }
  }

  lemma ViewsTotalSnoc(vs: seq<ItemView>, v: ItemView)
    ensures ViewsTotal(vs + [v]) == ViewsTotal(vs) + v.qty * v.priceAtPurchase
  {
    assert (vs + [v])[..|vs|] == vs;
  }

  /** GET /orders/:id on the state `t`, with the id as parseInt left it. */
  function GetOrder(t: Tables, id: ParamId): (r: Response)
    ensures r.status == 200 <==> BindsAsInt4(id) && id.n in t.orders
    ensures r.status == 404 <==> BindsAsInt4(id) && id.n !in t.orders
    ensures r.status == 404 ==> r.body == ErrorJson("Order not found")
    ensures !BindsAsInt4(id) ==> r == ErrorHandler(BindError(id))
    ensures r.status == 200 ==> r.body.OrderDetailJson? && r.body.order == t.orders[id.n]
    ensures r.status == 200 ==> forall v :: v in r.body.items ==> v.productId in t.products
  {
    if !BindsAsInt4(id) then ErrorHandler(BindError(id))
    else if id.n !in t.orders then Response(404, ErrorJson("Order not found"))
    else
      var views := ItemViews(t.items, t.products, id.n);
      ViewsInCatalog(t.items, t.products, id.n);
      Response(200, OrderDetailJson(t.orders[id.n], views, ViewsTotal(views)))
  }

  lemma {:induction false} ViewsInCatalog(items: seq<OrderItem>, products: map<int, Product>, orderId: int)
    ensures forall v :: v in ItemViews(items, products, orderId) ==> v.productId in products
  {
    if items != [] {
      ViewsInCatalog(items[..|items| - 1], products, orderId);
    }
  }

  /** In a consistent store the detail total is the order's exact total. */
  lemma DetailTotal(t: Tables, orderId: int)
    requires TablesOk(t) && orderId in t.orders && InInt4(orderId)
    ensures GetOrder(t, Num(orderId)).body.totalCents == OrderTotal(t.items, orderId)
  {
    ViewsTotalIsOrderTotal(t.items, t.products, orderId);
  }

  /** Changing the catalog (prices, stock, new products) leaves every order's detail total as
      it was: items carry the price paid. */
  lemma TotalsSurviveCatalogChanges(t: Tables, products': map<int, Product>, orderId: int)
    requires TablesOk(t) && orderId in t.orders && InInt4(orderId)
    requires t.products.Keys <= products'.Keys
    ensures GetOrder(t.(products := products'), Num(orderId)).body.totalCents == GetOrder(t, Num(orderId)).body.totalCents
  {
    ViewsTotalIsOrderTotal(t.items, t.products, orderId);
    ViewsTotalIsOrderTotal(t.items, products', orderId);
  }

  function Summarize(o: Order, items: seq<OrderItem>): OrderSummary {
    OrderSummary(o.id, o.createdAt, OrderTotal(items, o.id), ItemCount(items, o.id))
  }

  /** The orders, newest first. */
  function NewestFirst(orders: map<int, Order>): (r: seq<Order>)
    ensures |r| == |orders|
    ensures forall o :: o in r <==> o in orders.Values
    ensures forall i, j :: 0 <= i < j < |r| ==> r[i].createdAt >= r[j].createdAt
  {
    var scan := ValuesByKey(orders);
    var key := (o: Order) => IntKey(o.createdAt);
    SortByMembers(scan, key, true);
    SortBy(scan, key, true)
  }

  /** GET /orders, as evidently intended: the summaries of the orders, newest first. */
  function ListOrders(orders: map<int, Order>, items: seq<OrderItem>): seq<OrderSummary> {
    Summaries(NewestFirst(orders), items)
  }

  function Summaries(os: seq<Order>, items: seq<OrderItem>): (r: seq<OrderSummary>)
    ensures |r| == |os|
    ensures forall i :: 0 <= i < |os| ==> r[i] == Summarize(os[i], items)
  {
    seq(|os|, i requires 0 <= i < |os| => Summarize(os[i], items))
  }

  /** Every order has its summary in the listing. */
  lemma ListOrdersComplete(os: seq<Order>, orders: map<int, Order>, items: seq<OrderItem>)
    requires forall o :: o in os <==> o in orders.Values
    ensures forall o :: o in orders.Values ==> Summarize(o, items) in Summaries(os, items)
  {
    var r := Summaries(os, items);
    forall o | o in orders.Values ensures Summarize(o, items) in r {
      var i :| 0 <= i < |os| && os[i] == o;
      assert r[i] == Summarize(o, items);
    }
  }

  /** Every summary in the listing is an order's, with its exact total and item count. */
  lemma ListOrdersSound(os: seq<Order>, orders: map<int, Order>, items: seq<OrderItem>)
    requires forall o :: o in os <==> o in orders.Values
    ensures forall s :: s in Summaries(os, items) ==>
      Order(s.id, s.createdAt) in orders.Values && s.totalCents == OrderTotal(items, s.id) && s.itemCount == ItemCount(items, s.id)
  {
    var r := Summaries(os, items);
    forall s | s in r
      ensures Order(s.id, s.createdAt) in orders.Values && s.totalCents == OrderTotal(items, s.id) && s.itemCount == ItemCount(items, s.id)
    {
      var i :| 0 <= i < |r| && r[i] == s;
      assert os[i] in os;
      assert Order(s.id, s.createdAt) == os[i];
    }
  }

  /** The listing holds every order once, newest first, each with its exact total and item
      count. */
  lemma ListOrdersSpec(orders: map<int, Order>, items: seq<OrderItem>)
    ensures |ListOrders(orders, items)| == |orders|
    ensures forall o :: o in orders.Values ==> Summarize(o, items) in ListOrders(orders, items)
    ensures forall s :: s in ListOrders(orders, items) ==>
      Order(s.id, s.createdAt) in orders.Values && s.totalCents == OrderTotal(items, s.id) && s.itemCount == ItemCount(items, s.id)
    ensures forall i, j :: 0 <= i < j < |ListOrders(orders, items)| ==>
      ListOrders(orders, items)[i].createdAt >= ListOrders(orders, items)[j].createdAt
  {
    var os := NewestFirst(orders);
    ListOrdersComplete(os, orders, items);
    ListOrdersSound(os, orders, items);
  }

  /** GET /orders on the state `t`. */
  function ListOrdersResponse(t: Tables): Response {
    Response(200, OrderListJson(ListOrders(t.orders, t.items)))
  }

  /** Some value the list query computes leaves the INTEGER range: a line's `qty * price`
      (INTEGER times INTEGER), or an order's summed total or item count cast back with `::int`. */
  predicate ListingOverflows(orders: map<int, Order>, items: seq<OrderItem>) {
    || (exists i :: 0 <= i < |items| && items[i].orderId in orders && !InInt4(items[i].qty * items[i].priceAtPurchase))
    || (exists k :: k in orders && (!InInt4(OrderTotal(items, orders[k].id)) || !InInt4(ItemCount(items, orders[k].id))))
  }

  /** GET /orders as written: the query fails, and the client gets a 500, as soon as one
      order's figures leave the INTEGER range. */
  function ListOrdersAsWritten(t: Tables): (r: Response)
    ensures r.status == 500 <==> ListingOverflows(t.orders, t.items)
    ensures r.status != 500 ==> r == ListOrdersResponse(t)
  {
    if ListingOverflows(t.orders, t.items) then ErrorHandler(IntegerOutOfRange) else ListOrdersResponse(t)
  }

  // ----- Worked examples -----

  lemma AscendingSingleton(p: int)
    ensures AscendingKeys({p}) == [p]
  {
    assert Minimum({p}) == p;
    assert {p} - {p} == {};
  }

  lemma CoalescedSingle(p: int, q: int)
    ensures Coalesced([LineRequest(p, q)]) == [LineRequest(p, q)]
  {
    var items := [LineRequest(p, q)];
    assert IdSet(items) == {p} by {
      assert items[0].productId == p;
    }
    AscendingSingleton(p);
    assert QtyOf(items, p) == q by {
      assert items[..0] == [];
    }
  }

  /** Two lines for one product are served as one line for their sum. */
  lemma RepeatedLinesMerge(p: int)
    ensures Coalesced([LineRequest(p, 2), LineRequest(p, 3)]) == [LineRequest(p, 5)]
  {
    var items := [LineRequest(p, 2), LineRequest(p, 3)];
    assert IdSet(items) == {p} by {
      assert items[0].productId == p;
    }
    AscendingSingleton(p);
    assert items[..1] == [LineRequest(p, 2)] && items[..1][..0] == [];
    assert QtyOf(items[..1], p) == 2;
    assert QtyOf(items, p) == 5;
  }

  /** Ordering 2 and then 3 of a product in one request behaves exactly as ordering 5. */
  lemma RepeatedLinesActAsOne(t: Tables, p: int)
    requires p > 0
    ensures var split, merged := OrderRequest([LineRequest(p, 2), LineRequest(p, 3)]), OrderRequest([LineRequest(p, 5)]);
      Decide(split, t.products) == Decide(merged, t.products) && Placed(t, split) == Placed(t, merged)
  {
    var split, merged := OrderRequest([LineRequest(p, 2), LineRequest(p, 3)]), OrderRequest([LineRequest(p, 5)]);
    RepeatedLinesMerge(p);
    CoalescedSingle(p, 5);
    assert ValidRequest(split) && ValidRequest(merged);
    StockAfterCoalesced(t.products, split.items);
    StockAfterCoalesced(t.products, merged.items);
  }

  /** Asking for 4 of a product with 3 in stock is refused with 409, naming the product and
      the 3 available. */
  lemma OversellIsRejected(products: map<int, Product>, p: int)
    requires p in products && products[p].stockQty == 3 && 0 < p <= Int4Max
    ensures Decide(OrderRequest([LineRequest(p, 4)]), products) == Reject(OutOfStock(products[p]))
    ensures ErrorHandler(OutOfStock(products[p])).status == 409
  {
    CoalescedSingle(p, 4);
    assert RequestIssues(OrderRequest([LineRequest(p, 4)])) == [];
  }

  /** Two orders of 3 against a stock of 5: the first is placed and leaves 2, the second is
      refused with 409 against the 2 left. */
  lemma SecondOrderSeesTheFirst(t: Tables, p: int)
    requires p in t.products && t.products[p].stockQty == 5 && 0 < p <= Int4Max
    ensures Decide(OrderRequest([LineRequest(p, 3)]), t.products).Accept?
    ensures Placed(t, OrderRequest([LineRequest(p, 3)])).products[p].stockQty == 2
    ensures var after := Placed(t, OrderRequest([LineRequest(p, 3)])).products;
      Decide(OrderRequest([LineRequest(p, 3)]), after) == Reject(OutOfStock(after[p]))
  {
    var body := OrderRequest([LineRequest(p, 3)]);
    CoalescedSingle(p, 3);
    assert RequestIssues(body) == [];
    assert QtyOf(body.items, p) == 3 by {
      assert body.items[..0] == [];
    }
  }

  /** A catalog where one order leads GET /orders into the overflow: a product at 100000
      cents with 30000 in stock. */
  function BigTicketStore(): Tables {
    Tables(map[1 := Product(1, "Rack server", "SRV-001", 100000, 30000, 0)], map[], [], 2, 1, 1, 1)
  }

  /** The state after the whole stock of the big-ticket product is bought in one order. */
  function BigTicketAfter(): Tables {
    Tables(map[1 := Product(1, "Rack server", "SRV-001", 100000, 0, 0)], map[1 := Order(1, 1)],
           [OrderItem(1, 1, 1, 30000, 100000)], 2, 2, 2, 2)
  }

  lemma BigTicketStoreOk()
    ensures TablesOk(BigTicketStore())
  {
  }

  /** Buying the whole big-ticket stock is accepted and leads to `BigTicketAfter`. */
  lemma BigOrderIsPlaced()
    ensures Decide(OrderRequest([LineRequest(1, 30000)]), BigTicketStore().products).Accept?
    ensures Placed(BigTicketStore(), OrderRequest([LineRequest(1, 30000)])) == BigTicketAfter()
  {
    var t := BigTicketStore();
    var body := OrderRequest([LineRequest(1, 30000)]);
    CoalescedSingle(1, 30000);
    assert RequestIssues(body) == [];
    assert QtyOf(body.items, 1) == 30000 by {
      assert body.items[..0] == [];
    }
    var after := BigTicketAfter();
    assert StockAfter(t.products, body.items) == after.products;
    assert OrderLines([LineRequest(1, 30000)], t.products, 1, 1) == [OrderItem(1, 1, 1, 30000, 100000)];
  }

  /** After that order GET /orders answers 500, while the order's own detail shows its
      3000000000-cent total and the corrected listing lists it. */
  lemma ListingOverflowAfterBigOrder()
    ensures ListOrdersAsWritten(BigTicketAfter()).status == 500
    ensures GetOrder(BigTicketAfter(), Num(1)).body.totalCents == 3000000000
    ensures ListOrdersResponse(BigTicketAfter()).status == 200
  {
    var t := BigTicketAfter();
    assert t.items[0].orderId in t.orders && !InInt4(t.items[0].qty * t.items[0].priceAtPurchase);
    assert t.items[..0] == [];
    var views := ItemViews(t.items, t.products, 1);
    assert views == ItemViews([], t.products, 1) + [ItemView(1, 30000, 100000, "Rack server", "SRV-001", 1)];
    assert views[..0] == [];
  }
}
