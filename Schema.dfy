/** The relational store: the three tables, their CHECK / UNIQUE / REFERENCES constraints
    as the store invariant, and the one-off seeding of the catalog. */
module Schema {

  /** Largest value of a PostgreSQL INTEGER column. */
  const Int4Max: int := 2147483647

  predicate InInt4(n: int) {
    -2147483648 <= n <= Int4Max
  }

  /** A products row. `createdAt` is the store clock reading that stood in for NOW(). */
  datatype Product = Product(id: int, name: string, sku: string, priceCents: int, stockQty: int, createdAt: nat)

  /** An orders row. */
  datatype Order = Order(id: int, createdAt: nat)

  /** An order_items row. */
  datatype OrderItem = OrderItem(id: int, orderId: int, productId: int, qty: int, priceAtPurchase: int)

  /** The CHECK constraints of a products row, and its INTEGER columns' range. */
  predicate ProductRowOk(p: Product) {
    && |p.name| > 0
    && |p.sku| > 0
    && 0 <= p.priceCents <= Int4Max
    && 0 <= p.stockQty <= Int4Max
  }

  /** The CHECK constraints of an order_items row, and its INTEGER columns' range. */
  predicate ItemRowOk(it: OrderItem) {
    && 0 < it.qty <= Int4Max
    && 0 <= it.priceAtPurchase <= Int4Max
  }

  predicate SkuTaken(products: map<int, Product>, sku: string) {
    exists k :: k in products && products[k].sku == sku
  }

  /** products.sku UNIQUE. */
  ghost predicate SkusUnique(products: map<int, Product>) {
    forall a, b :: a in products && b in products && a != b ==> products[a].sku != products[b].sku
  }

  /** Every products row is keyed by its id, was numbered by the SERIAL and stamped by the
      clock, and meets its constraints; SKUs are unique. */
  ghost predicate ProductsOk(products: map<int, Product>, nextProductId: int, clock: nat) {
    && (forall k :: k in products ==>
          && products[k].id == k
          && 1 <= k < nextProductId
          && products[k].createdAt < clock
          && ProductRowOk(products[k]))
    && SkusUnique(products)
  }

  ghost predicate OrdersOk(orders: map<int, Order>, nextOrderId: int, clock: nat) {
    forall k :: k in orders ==> orders[k].id == k && 1 <= k < nextOrderId && orders[k].createdAt < clock
  }

  /** order_items rows meet their constraints, reference an existing order and an existing
      product, and carry SERIAL ids in insertion order. */
  ghost predicate ItemsOk(items: seq<OrderItem>, orders: map<int, Order>, products: map<int, Product>, nextItemId: int) {
    && (forall i :: 0 <= i < |items| ==>
          && ItemRowOk(items[i])
          && items[i].orderId in orders
          && items[i].productId in products
          && 1 <= items[i].id < nextItemId)
    && (forall i, j :: 0 <= i < j < |items| ==> items[i].id < items[j].id)
  }

  /** The product is referenced by some order item (the REFERENCES products(id) side). */
  predicate Referenced(items: seq<OrderItem>, productId: int) {
    exists i :: 0 <= i < |items| && items[i].productId == productId
  }

  /** A row of the fixed seed data. */
  datatype SeedRow = SeedRow(name: string, sku: string, priceCents: int, stockQty: int)

  const SeedRows: seq<SeedRow> := [
    SeedRow("Wireless Noise-Cancelling Headphones", "ELEC-001", 29999, 42),
    SeedRow("Mechanical Keyboard - TKL", "ELEC-002", 8999, 75),
    SeedRow("USB-C Hub 7-in-1", "ELEC-003", 4999, 120),
    SeedRow("27\" 4K Monitor", "ELEC-004", 54999, 18),
    SeedRow("Ergonomic Office Chair", "FURN-001", 89999, 10),
    SeedRow("Standing Desk Converter", "FURN-002", 24999, 30),
    SeedRow("LED Desk Lamp with USB Charging", "FURN-003", 3999, 85),
    SeedRow("Webcam 1080p with Microphone", "ELEC-005", 7999, 60),
    SeedRow("Laptop Stand Aluminum", "ELEC-006", 2999, 200),
    SeedRow("Wireless Mouse - Ergonomic", "ELEC-007", 4499, 95),
    SeedRow("Cable Management Box", "FURN-004", 1999, 150),
    SeedRow("Monitor Light Bar", "ELEC-008", 3499, 70)
  ]

  function SeedProduct(row: SeedRow, id: int, stamp: nat): Product {
    Product(id, row.name, row.sku, row.priceCents, row.stockQty, stamp)
  }

  /** Every seed row satisfies the products constraints and no two share a SKU. */
  lemma SeedRowsOk()
    ensures forall i :: 0 <= i < |SeedRows| ==> ProductRowOk(SeedProduct(SeedRows[i], 1, 0))
    ensures forall i, j :: 0 <= i < j < |SeedRows| ==> SeedRows[i].sku != SeedRows[j].sku
  {
  }

  /** INSERT ... ON CONFLICT (sku) DO NOTHING of `rows`, numbered from `firstId` on: a row
      whose SKU is already present is skipped, but still draws its number. */
  function InsertOrSkip(table: map<int, Product>, rows: seq<SeedRow>, firstId: int, stamp: nat): (t: map<int, Product>)
    requires forall k :: k in table ==> k < firstId
    ensures table.Keys <= t.Keys
    ensures forall k :: k in t && k !in table ==> firstId <= k < firstId + |rows| && t[k] == SeedProduct(rows[k - firstId], k, stamp)
    ensures forall k :: k in table ==> t[k] == table[k]
  {
    if rows == [] then table
    else
      var n := |rows| - 1;
      var t := InsertOrSkip(table, rows[..n], firstId, stamp);
      if SkuTaken(t, rows[n].sku) then t
      else t[firstId + n := SeedProduct(rows[n], firstId + n, stamp)]
  }

  /** Adding a row whose SKU is not taken keeps SKUs unique. */
  lemma AddFreshSku(t: map<int, Product>, k: int, p: Product)
    requires SkusUnique(t) && k !in t && !SkuTaken(t, p.sku)
    ensures SkusUnique(t[k := p])
  {
    var t' := t[k := p];
    forall a, b | a in t' && b in t' && a != b ensures t'[a].sku != t'[b].sku {
      if a == k {
        assert t[b].sku != p.sku;
      } else if b == k {
        assert t[a].sku != p.sku;
      }
    }
  }

  /** The insert never produces a duplicate SKU. */
  lemma {:induction false} InsertOrSkipUnique(table: map<int, Product>, rows: seq<SeedRow>, firstId: int, stamp: nat)
    requires SkusUnique(table)
    requires forall k :: k in table ==> k < firstId
    ensures SkusUnique(InsertOrSkip(table, rows, firstId, stamp))
  {
    if rows != [] {
      var n := |rows| - 1;
      InsertOrSkipUnique(table, rows[..n], firstId, stamp);
      var t := InsertOrSkip(table, rows[..n], firstId, stamp);
      if !SkuTaken(t, rows[n].sku) {
        var p := SeedProduct(rows[n], firstId + n, stamp);
        assert InsertOrSkip(table, rows, firstId, stamp) == t[firstId + n := p];
        AddFreshSku(t, firstId + n, p);
      } else {
        assert InsertOrSkip(table, rows, firstId, stamp) == t;
      }
    }
  }

  /** After the insert every row's SKU is present (inserted now or already there). */
  lemma {:induction false} InsertOrSkipCovers(table: map<int, Product>, rows: seq<SeedRow>, firstId: int, stamp: nat)
    requires forall k :: k in table ==> k < firstId
    ensures forall i :: 0 <= i < |rows| ==> SkuTaken(InsertOrSkip(table, rows, firstId, stamp), rows[i].sku)
  {
    if rows != [] {
      var n := |rows| - 1;
      InsertOrSkipCovers(table, rows[..n], firstId, stamp);
      var t := InsertOrSkip(table, rows[..n], firstId, stamp);
      var t' := InsertOrSkip(table, rows, firstId, stamp);
      forall i | 0 <= i < |rows| ensures SkuTaken(t', rows[i].sku) {
        if i < n {
          assert rows[..n][i] == rows[i];
          SkuTakenGrows(t, t', rows[i].sku);
        } else if SkuTaken(t, rows[n].sku) {
          SkuTakenGrows(t, t', rows[i].sku);
        } else {
          assert t'[firstId + n].sku == rows[i].sku;
        }
      }
    }
  }

  /** A SKU present before more rows are added stays present. */
  lemma SkuTakenGrows(t: map<int, Product>, t': map<int, Product>, sku: string)
    requires forall k :: k in t ==> k in t' && t'[k] == t[k]
    requires SkuTaken(t, sku)
    ensures SkuTaken(t', sku)
  {
    var k :| k in t && t[k].sku == sku;
    assert t'[k].sku == sku;
  }

  /** Inserting rows with distinct SKUs into an empty table skips nothing. */
  lemma {:induction false} InsertOrSkipIntoEmpty(rows: seq<SeedRow>, firstId: int, stamp: nat)
    requires forall i, j :: 0 <= i < j < |rows| ==> rows[i].sku != rows[j].sku
    ensures forall k :: k in InsertOrSkip(map[], rows, firstId, stamp) <==> firstId <= k < firstId + |rows|
  {
    if rows != [] {
      var n := |rows| - 1;
      InsertOrSkipIntoEmpty(rows[..n], firstId, stamp);
      var t := InsertOrSkip(map[], rows[..n], firstId, stamp);
      forall k | k in t ensures t[k].sku != rows[n].sku {
        assert rows[..n][k - firstId] == rows[k - firstId];
      }
    }
  }

  /** Seeding an empty table yields a non-empty table that meets the products constraints. */
  lemma SeedTableOk(firstId: int, stamp: nat)
    requires 1 <= firstId
    ensures var t := InsertOrSkip(map[], SeedRows, firstId, stamp);
      ProductsOk(t, firstId + |SeedRows|, stamp + 1) && firstId in t
  {
    var t := InsertOrSkip(map[], SeedRows, firstId, stamp);
    SeedRowsOk();
    InsertOrSkipIntoEmpty(SeedRows, firstId, stamp);
    InsertOrSkipUnique(map[], SeedRows, firstId, stamp);
    forall k | k in t ensures ProductRowOk(t[k]) {
      assert ProductRowOk(SeedProduct(SeedRows[k - firstId], 1, 0));
    }
  }

  /** The loop behind the INSERT statement of `seed`. */
  method InsertSeedRows(table: map<int, Product>, rows: seq<SeedRow>, firstId: int, stamp: nat) returns (t: map<int, Product>)
    requires forall k :: k in table ==> k < firstId
    ensures t == InsertOrSkip(table, rows, firstId, stamp)
  {
    t := table;
    var i := 0;
    while i < |rows|
      invariant 0 <= i <= |rows|
      invariant t == InsertOrSkip(table, rows[..i], firstId, stamp)
    {
      assert rows[..i + 1][..i] == rows[..i];
      if !SkuTaken(t, rows[i].sku) {
        t := t[firstId + i := SeedProduct(rows[i], firstId + i, stamp)];
      }
      i := i + 1;
    }
    assert rows[..i] == rows;
  }

  /** Stamping later keeps the orders table within the clock. */
  lemma OrdersOkLater(orders: map<int, Order>, nextOrderId: int, clock: nat, later: nat)
    requires OrdersOk(orders, nextOrderId, clock) && clock <= later
    ensures OrdersOk(orders, nextOrderId, later)
  {
  }

  /** Adding products, orders or item numbers never breaks the order_items references. */
  lemma ItemsOkWider(items: seq<OrderItem>, orders: map<int, Order>, orders': map<int, Order>,
                     products: map<int, Product>, products': map<int, Product>, nextItemId: int, nextItemId': int)
    requires ItemsOk(items, orders, products, nextItemId)
    requires orders.Keys <= orders'.Keys && products.Keys <= products'.Keys && nextItemId <= nextItemId'
    ensures ItemsOk(items, orders', products', nextItemId')
  {
  }

  /** The whole database state: the three tables, the three SERIAL sequences' next values,
      and the clock that stands in for NOW(). */
  datatype Tables = Tables(products: map<int, Product>, orders: map<int, Order>, items: seq<OrderItem>,
                           nextProductId: int, nextOrderId: int, nextItemId: int, clock: nat)

  /** All table constraints hold. */
  ghost predicate TablesOk(t: Tables) {
    && 1 <= t.nextProductId && 1 <= t.nextOrderId && 1 <= t.nextItemId
    && ProductsOk(t.products, t.nextProductId, t.clock)
    && OrdersOk(t.orders, t.nextOrderId, t.clock)
    && ItemsOk(t.items, t.orders, t.products, t.nextItemId)
  }

  /** The state after `seed` inserts into an empty products table: the seed rows, numbered
      from the products sequence and all stamped with one NOW(). */
  function Seeded(t: Tables): Tables
    requires t.products == map[]
  {
    t.(products := InsertOrSkip(map[], SeedRows, t.nextProductId, t.clock),
       nextProductId := t.nextProductId + |SeedRows|,
       clock := t.clock + 1)
  }

  /** Seeding an empty products table keeps every constraint and leaves it non-empty. */
  lemma SeededOk(t: Tables)
    requires TablesOk(t) && t.products == map[]
    ensures TablesOk(Seeded(t)) && Seeded(t).products != map[]
  {
    var t' := Seeded(t);
    SeedTableOk(t.nextProductId, t.clock);
    assert t.nextProductId in t'.products;
    OrdersOkLater(t.orders, t.nextOrderId, t.clock, t'.clock);
    ItemsOkWider(t.items, t.orders, t.orders, t.products, t'.products, t.nextItemId, t.nextItemId);
  }

  class Store {
    var products: map<int, Product>
    var orders: map<int, Order>
    var items: seq<OrderItem>
    /** The next values of the three SERIAL sequences. */
    var nextProductId: int
    var nextOrderId: int
    var nextItemId: int
    /** Stands in for NOW(): one tick per statement that stamps rows. */
    var clock: nat

    function State(): Tables
      reads this
    {
      Tables(products, orders, items, nextProductId, nextOrderId, nextItemId, clock)
    }

    ghost predicate Valid()
      reads this
    {
      TablesOk(State())
    }

    /** COMMIT of a transaction: the state it computed becomes the database state. */
    method Commit(t: Tables)
      modifies this
      ensures State() == t
    {
      products, orders, items := t.products, t.orders, t.items;
      nextProductId, nextOrderId, nextItemId, clock := t.nextProductId, t.nextOrderId, t.nextItemId, t.clock;
    }

    /** `migrate` on a database that has none of the tables: the three tables, created empty. */
    constructor Migrate()
      ensures Valid()
      ensures products == map[] && orders == map[] && items == []
      ensures nextProductId == 1 && nextOrderId == 1 && nextItemId == 1
    {
      products, orders, items := map[], map[], [];
      nextProductId, nextOrderId, nextItemId := 1, 1, 1;
      clock := 0;
    }

    /** `migrate` on a database whose tables exist: each CREATE TABLE IF NOT EXISTS is
        skipped, so every row and every sequence is kept. */
    method MigrateAgain()
      requires Valid()
      modifies this
      ensures Valid()
      ensures State() == old(State())
    {
    }

    /** `seed`: a no-op when any product exists; otherwise inserts the seed rows in one
        statement (one NOW() stamp), skipping a row whose SKU is already present. */
    method Seed()
      requires Valid()
      modifies this
      ensures Valid()
      ensures old(products) != map[] ==> unchanged(this)
      ensures old(products) == map[] ==> State() == Seeded(old(State()))
      ensures products != map[]
    {
      if products != map[] {
        return;
      }
      var t := State();
      var table := InsertSeedRows(map[], SeedRows, t.nextProductId, t.clock);
      SeededOk(t);
      var t' := Seeded(t);
      Commit(t'.(products := table));
    }
  }
}
