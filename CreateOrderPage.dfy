/** The new-order page of the web client: a product filter, a cart kept as a JavaScript Map
    from product id to line, its totals, and the request the cart turns into. */
module CreateOrderPage {
  import opened Wrappers
  import opened Strings
  import opened Like
  import opened Schema
  import Orders
  import Products

  /** One cart line: the product as listed when it was added, and how many of it. */
  datatype CartItem = CartItem(product: Product, qty: int)

  /** A JavaScript Map: its entries, and its keys in insertion order. */
  datatype Cart = Cart(keys: seq<int>, entries: map<int, CartItem>)

  const EmptyCart: Cart := Cart([], map[])

  predicate Distinct(ks: seq<int>) {
    forall i, j :: 0 <= i < j < |ks| ==> ks[i] != ks[j]
  }

  /** What the page keeps true of its cart: a well-formed Map, keyed by product id, with every
      quantity between 1 and the stock shown for the product. */
  ghost predicate CartOk(c: Cart) {
    && Distinct(c.keys)
    && (forall k :: k in c.entries <==> k in c.keys)
    && (forall k :: k in c.entries ==>
          c.entries[k].product.id == k && 1 <= c.entries[k].qty <= c.entries[k].product.stockQty)
  }

  /** The quantity of a product in the cart, 0 when it is not there. */
  function QtyIn(c: Cart, id: int): int {
    if id in c.entries then c.entries[id].qty else 0
  }

  /** Every entry other than `id` is as it was. */
  ghost predicate OthersUnchanged(c: Cart, r: Cart, id: int) {
    forall k :: k != id ==>
      (k in r.entries <==> k in c.entries) && (k in c.entries ==> r.entries[k] == c.entries[k])
  }

  /** Map.prototype.set: a new key goes last, an existing key keeps its place. */
  function Set(c: Cart, k: int, v: CartItem): (r: Cart)
    ensures r.entries == c.entries[k := v]
    ensures k in r.keys
    ensures |c.keys| <= |r.keys| && r.keys[..|c.keys|] == c.keys
    ensures forall x :: x in r.keys <==> x in c.keys || x == k
    ensures Distinct(c.keys) ==> Distinct(r.keys)
  {
    Cart(if k in c.keys then c.keys else c.keys + [k], c.entries[k := v])
  }

  /** The keys without `k`, in the same order. */
  function Without(ks: seq<int>, k: int): (r: seq<int>)
    ensures forall x :: x in r <==> x in ks && x != k
    ensures Distinct(ks) ==> Distinct(r)
    ensures k !in ks ==> r == ks
    ensures ks == [k] ==> r == []
  {
    if ks == [] then []
    else
      var n := |ks| - 1;
      var prefix := Without(ks[..n], k);
      assert forall x :: x in ks <==> x in ks[..n] || x == ks[n];
      assert Distinct(ks) ==> ks[n] !in ks[..n];
      prefix + (if ks[n] == k then [] else [ks[n]])
  }

  /** Dropping a key from each part of the key list drops it from the whole, in order. */
  lemma {:induction false} WithoutAppend(x: seq<int>, y: seq<int>, k: int)
    ensures Without(x + y, k) == Without(x, k) + Without(y, k)
    decreases |y|
  {
    if y == [] {
      assert x + y == x;
    } else {
      var n := |y| - 1;
      var init := y[..n];
      assert y == init + [y[n]];
      assert x + y == (x + init) + [y[n]];
      var kept := (if y[n] == k then [] else [y[n]]);
      calc {
        Without(x + y, k);
        { WithoutSnoc(x + init, y[n], k); }
        Without(x + init, k) + kept;
        { WithoutAppend(x, init, k); }
        (Without(x, k) + Without(init, k)) + kept;
        Without(x, k) + (Without(init, k) + kept);
        { WithoutSnoc(init, y[n], k); }
        Without(x, k) + Without(y, k);
      }
    }
  }

  /** One more element is appended to the result iff it is kept. */
  lemma WithoutSnoc(s: seq<int>, e: int, k: int)
    ensures Without(s + [e], k) == Without(s, k) + (if e == k then [] else [e])
  {
    assert (s + [e])[..|s|] == s;
  }

  /** Map.prototype.delete. */
  function Delete(c: Cart, k: int): (r: Cart)
    ensures r.entries == c.entries - {k}
    ensures forall x :: x in r.keys <==> x in c.keys && x != k
    ensures Distinct(c.keys) ==> Distinct(r.keys)
    ensures k !in c.keys ==> r.keys == c.keys
  {
    Cart(Without(c.keys, k), c.entries - {k})
  }

  /** Deleting a key closes its gap: the keys before and after it keep their order. */
  lemma DeleteKeepsOrder(c: Cart, before: seq<int>, k: int, after: seq<int>)
    requires c.keys == before + [k] + after && k !in before && k !in after
    ensures Delete(c, k).keys == before + after
  {
    WithoutAppend(before + [k], after, k);
    WithoutAppend(before, [k], k);
  }

  /** Clicking a product card: one more of it, as long as that stays within its stock. */
  function AddToCart(c: Cart, p: Product): (r: Cart)
    ensures QtyIn(r, p.id) == if QtyIn(c, p.id) < p.stockQty then QtyIn(c, p.id) + 1 else QtyIn(c, p.id)
    ensures p.id in r.entries <==> p.id in c.entries || p.stockQty > 0
    ensures p.id in c.entries ==> p.id in r.entries && r.entries[p.id].product == c.entries[p.id].product
    ensures p.id !in c.entries && p.id in r.entries ==> r.entries[p.id].product == p
    ensures OthersUnchanged(c, r, p.id)
    ensures |c.keys| <= |r.keys| && r.keys[..|c.keys|] == c.keys
  {
    if p.id in c.entries && c.entries[p.id].qty < p.stockQty then
      Set(c, p.id, c.entries[p.id].(qty := c.entries[p.id].qty + 1))
    else if p.id !in c.entries && p.stockQty > 0 then
      Set(c, p.id, CartItem(p, 1))
    else
      c
  }

  /** Adding a product shown with the same stock as its cart line keeps the cart well formed. */
  lemma AddToCartKeepsCartOk(c: Cart, p: Product)
    requires CartOk(c)
    requires p.id in c.entries ==> c.entries[p.id].product == p
    ensures CartOk(AddToCart(c, p))
  {
  }

  function Min(a: int, b: int): int {
    if a <= b then a else b
  }

  /** The minus and plus buttons: a quantity of 0 or less removes the line, any other is
      capped at the stock; a product not in the cart is left out. */
  function SetQty(c: Cart, id: int, qty: int): (r: Cart)
    ensures qty <= 0 ==> id !in r.entries && id !in r.keys
    ensures qty > 0 && id in c.entries ==>
      && id in r.entries && r.entries[id].product == c.entries[id].product
      && r.entries[id].qty == Min(qty, c.entries[id].product.stockQty)
    ensures qty > 0 && id !in c.entries ==> r == c
    ensures OthersUnchanged(c, r, id)
  {
    if qty <= 0 then Delete(c, id)
    else if id in c.entries then
      Set(c, id, c.entries[id].(qty := Min(qty, c.entries[id].product.stockQty)))
    else c
  }

  /** Changing a quantity keeps the cart well formed, and the lines keep their order unless
      one is removed. */
  lemma SetQtyKeepsCartOk(c: Cart, id: int, qty: int)
    requires CartOk(c)
    ensures CartOk(SetQty(c, id, qty))
    ensures qty > 0 ==> SetQty(c, id, qty).keys == c.keys
  {
  }

  // ----- totals -----

  /** Sum of `w` over the cart lines, in key order. */
  function SumOver(ks: seq<int>, m: map<int, CartItem>, w: CartItem -> int): int {
    if ks == [] then 0
    else
      var n := |ks| - 1;
      SumOver(ks[..n], m, w) + (if ks[n] in m then w(m[ks[n]]) else 0)
  }

  function LineCents(i: CartItem): int {
    i.qty * i.product.priceCents
  }

  function LineQty(i: CartItem): int {
    i.qty
  }

  function TotalCents(c: Cart): int {
    SumOver(c.keys, c.entries, LineCents)
  }

  function TotalItems(c: Cart): int {
    SumOver(c.keys, c.entries, LineQty)
  }

  lemma {:induction false} SumOverUpdate(ks: seq<int>, m: map<int, CartItem>, k: int, v: CartItem, w: CartItem -> int)
    requires Distinct(ks) && k in ks && k in m
    ensures SumOver(ks, m[k := v], w) == SumOver(ks, m, w) - w(m[k]) + w(v)
  {
    var n := |ks| - 1;
    if ks[n] == k {
      assert k !in ks[..n];
      SumOverFresh(ks[..n], m, k, v, w);
    } else {
      assert k in ks[..n];
      SumOverUpdate(ks[..n], m, k, v, w);
    }
  }

  lemma {:induction false} SumOverFresh(ks: seq<int>, m: map<int, CartItem>, k: int, v: CartItem, w: CartItem -> int)
    requires k !in ks
    ensures SumOver(ks, m[k := v], w) == SumOver(ks, m, w)
  {
    if ks != [] {
      var n := |ks| - 1;
      assert k !in ks[..n];
      SumOverFresh(ks[..n], m, k, v, w);
    }
  }

  lemma SumOverAppend(ks: seq<int>, m: map<int, CartItem>, k: int, v: CartItem, w: CartItem -> int)
    requires k !in ks
    ensures SumOver(ks + [k], m[k := v], w) == SumOver(ks, m, w) + w(v)
  {
    assert (ks + [k])[..|ks|] == ks;
    SumOverFresh(ks, m, k, v, w);
  }

  /** Each click that adds a unit raises the item count by one and the total by its price. */
  lemma AddToCartTotals(c: Cart, p: Product)
    requires CartOk(c)
    requires p.id in c.entries ==> c.entries[p.id].product == p
    ensures var added := QtyIn(AddToCart(c, p), p.id) - QtyIn(c, p.id);
      && TotalItems(AddToCart(c, p)) == TotalItems(c) + added
      && TotalCents(AddToCart(c, p)) == TotalCents(c) + added * p.priceCents
  {
    var r := AddToCart(c, p);
    if p.id in c.entries && c.entries[p.id].qty < p.stockQty {
      var v := c.entries[p.id].(qty := c.entries[p.id].qty + 1);
      SumOverUpdate(c.keys, c.entries, p.id, v, LineQty);
      SumOverUpdate(c.keys, c.entries, p.id, v, LineCents);
    } else if p.id !in c.entries && p.stockQty > 0 {
      SumOverAppend(c.keys, c.entries, p.id, CartItem(p, 1), LineQty);
      SumOverAppend(c.keys, c.entries, p.id, CartItem(p, 1), LineCents);
    }
  }

  /** Keys with no entry add nothing, so leaving one out of the list keeps the sum. */
  lemma {:induction false} SumOverSkipsMissing(ks: seq<int>, m: map<int, CartItem>, k: int, w: CartItem -> int)
    requires k !in m
    ensures SumOver(Without(ks, k), m, w) == SumOver(ks, m, w)
  {
    if ks != [] {
      var n := |ks| - 1;
      var init := ks[..n];
      assert ks == init + [ks[n]];
      WithoutSnoc(init, ks[n], k);
      SumOverSnoc(init, m, ks[n], w);
      SumOverSkipsMissing(init, m, k, w);
      if ks[n] != k {
        SumOverSnoc(Without(init, k), m, ks[n], w);
      } else {
        assert Without(init, k) + [] == Without(init, k);
      }
    }
  }

  /** One more key adds its line, if it has one. */
  lemma SumOverSnoc(ks: seq<int>, m: map<int, CartItem>, k: int, w: CartItem -> int)
    ensures SumOver(ks + [k], m, w) == SumOver(ks, m, w) + (if k in m then w(m[k]) else 0)
  {
    assert (ks + [k])[..|ks|] == ks;
  }

  /** Dropping an entry from the map loses exactly its line from the sum. */
  lemma {:induction false} SumOverDropEntry(ks: seq<int>, m: map<int, CartItem>, k: int, w: CartItem -> int)
    requires Distinct(ks)
    ensures SumOver(ks, m - {k}, w) == SumOver(ks, m, w) - (if k in ks && k in m then w(m[k]) else 0)
  {
    if ks != [] {
      var n := |ks| - 1;
      assert Distinct(ks[..n]);
      assert k in ks <==> k in ks[..n] || k == ks[n];
      assert ks[n] == k ==> k !in ks[..n];
      SumOverDropEntry(ks[..n], m, k, w);
    }
  }

  /** Deleting a key drops exactly its line from the sum. */
  lemma SumOverWithout(ks: seq<int>, m: map<int, CartItem>, k: int, w: CartItem -> int)
    requires Distinct(ks)
    ensures SumOver(Without(ks, k), m - {k}, w) == SumOver(ks, m, w) - (if k in ks && k in m then w(m[k]) else 0)
  {
    SumOverSkipsMissing(ks, m - {k}, k, w);
    SumOverDropEntry(ks, m, k, w);
  }

  /** Each quantity change moves the item count by the change in that line's quantity, and the
      total by that change times the product's price. */
  lemma SetQtyTotals(c: Cart, id: int, qty: int)
    requires CartOk(c)
    ensures var change := QtyIn(SetQty(c, id, qty), id) - QtyIn(c, id);
      && TotalItems(SetQty(c, id, qty)) == TotalItems(c) + change
      && (id in c.entries ==> TotalCents(SetQty(c, id, qty)) == TotalCents(c) + change * c.entries[id].product.priceCents)
  {
    if qty <= 0 {
      RemoveLineTotals(c, id);
    } else if id in c.entries {
      CapLineTotals(c, id, Min(qty, c.entries[id].product.stockQty));
    }
  }

  /** Removing a line subtracts its quantity and its amount. */
  lemma RemoveLineTotals(c: Cart, id: int)
    requires CartOk(c)
    ensures TotalItems(Delete(c, id)) == TotalItems(c) - QtyIn(c, id)
    ensures id in c.entries ==> TotalCents(Delete(c, id)) == TotalCents(c) - QtyIn(c, id) * c.entries[id].product.priceCents
  {
    SumOverWithout(c.keys, c.entries, id, LineQty);
    SumOverWithout(c.keys, c.entries, id, LineCents);
  }

  /** Setting an existing line to `q` moves the totals by the change in its quantity. */
  lemma CapLineTotals(c: Cart, id: int, q: int)
    requires CartOk(c) && id in c.entries
    ensures var r := Set(c, id, c.entries[id].(qty := q));
      && TotalItems(r) == TotalItems(c) + (q - c.entries[id].qty)
      && TotalCents(r) == TotalCents(c) + (q - c.entries[id].qty) * c.entries[id].product.priceCents
  {
    var before := c.entries[id];
    var v := before.(qty := q);
    SumOverUpdate(c.keys, c.entries, id, v, LineQty);
    SumOverUpdate(c.keys, c.entries, id, v, LineCents);
    assert LineCents(v) - LineCents(before) == (q - before.qty) * before.product.priceCents;
  }

  // ----- the order request -----

  /** One `{ product_id, qty }` per cart line, in key order. */
  function Lines(ks: seq<int>, m: map<int, CartItem>): (r: seq<Orders.LineRequest>)
    ensures |r| == |ks|
    ensures forall i :: 0 <= i < |ks| ==> r[i].productId == ks[i]
  {
    if ks == [] then []
    else
      var n := |ks| - 1;
      Lines(ks[..n], m) + [Orders.LineRequest(ks[n], if ks[n] in m then m[ks[n]].qty else 0)]
  }

  /** The number of entries of the Map, `cart.size`. */
  function Size(c: Cart): nat {
    |c.keys|
  }

  /** Place Order: nothing for an empty cart, otherwise the request body. */
  function OrderPayload(c: Cart): (r: Option<Orders.OrderRequest>)
    ensures r.None? <==> Size(c) == 0
    ensures r.Some? ==> |r.value.items| == Size(c)
  {
    if Size(c) == 0 then None else Some(Orders.OrderRequest(Lines(c.keys, c.entries)))
  }

  /** The request asks for each product exactly its cart quantity. */
  lemma {:induction false} LinesQty(ks: seq<int>, m: map<int, CartItem>, k: int)
    requires Distinct(ks)
    ensures Orders.QtyOf(Lines(ks, m), k) == if k in ks && k in m then m[k].qty else 0
  {
    if ks != [] {
      var n := |ks| - 1;
      assert Lines(ks, m)[..n] == Lines(ks[..n], m);
      assert forall x :: x in ks <==> x in ks[..n] || x == ks[n];
      LinesQty(ks[..n], m, k);
    }
  }

  /** A non-empty well-formed cart of listed products yields a request the order schema
      accepts, with one line per cart entry. */
  lemma PayloadIsValid(c: Cart)
    requires CartOk(c) && Size(c) > 0
    requires forall k :: k in c.entries ==> k > 0
    ensures OrderPayload(c).Some?
    ensures Orders.ValidRequest(OrderPayload(c).value)
    ensures forall k :: Orders.QtyOf(OrderPayload(c).value.items, k) == QtyIn(c, k)
  {
    var items := Lines(c.keys, c.entries);
    forall i | 0 <= i < |items| ensures items[i].productId > 0 && items[i].qty > 0 {
      LinesQtyAt(c.keys, c.entries, i);
      assert c.keys[i] in c.entries;
    }
    forall k ensures Orders.QtyOf(items, k) == QtyIn(c, k) {
      LinesQty(c.keys, c.entries, k);
    }
  }

  lemma {:induction false} LinesQtyAt(ks: seq<int>, m: map<int, CartItem>, i: int)
    requires 0 <= i < |ks|
    ensures Lines(ks, m)[i].qty == if ks[i] in m then m[ks[i]].qty else 0
  {
    var n := |ks| - 1;
    if i < n {
      LinesQtyAt(ks[..n], m, i);
    }
  }

  /** A cart that stays within the current stock of every product it holds is accepted by
      POST /orders. */
  lemma CartWithinStockIsAccepted(c: Cart, products: map<int, Product>)
    requires CartOk(c) && Size(c) > 0
    requires forall k :: k in c.entries ==>
      0 < k && InInt4(k) && k in products && products[k].stockQty >= c.entries[k].qty
    ensures Orders.Decide(OrderPayload(c).value, products).Accept?
  {
    PayloadIsValid(c);
    var body := OrderPayload(c).value;
    forall k | k in Orders.IdSet(body.items)
      ensures InInt4(k) && k in products && products[k].stockQty >= Orders.QtyOf(body.items, k)
    {
      var i :| 0 <= i < |body.items| && body.items[i].productId == k;
      assert c.keys[i] == k;
    }
    Orders.AcceptedWhenStocked(body, products);
  }

  // ----- the product filter -----

  /** The card is shown: no search, or its name or SKU contains the search, ignoring case. */
  predicate Shown(p: Product, search: string) {
    search == [] || Contains(Lower(p.name), Lower(search)) || Contains(Lower(p.sku), Lower(search))
  }

  function Filtered(products: seq<Product>, search: string): (r: seq<Product>)
    ensures forall p :: p in r <==> p in products && Shown(p, search)
    ensures search == [] ==> r == products
    ensures (forall i :: 0 <= i < |products| ==> Shown(products[i], search)) ==> r == products
    ensures |products| == 1 ==> r == (if Shown(products[0], search) then products else [])
  {
    if products == [] then []
    else
      var n := |products| - 1;
      assert products == products[..n] + [products[n]];
      Filtered(products[..n], search) + (if Shown(products[n], search) then [products[n]] else [])
  }

  /** The grid filters each part of the list on its own and keeps their order. */
  lemma {:induction false} FilteredAppend(x: seq<Product>, y: seq<Product>, search: string)
    ensures Filtered(x + y, search) == Filtered(x, search) + Filtered(y, search)
    decreases |y|
  {
    if y == [] {
      assert x + y == x;
    } else {
      var n := |y| - 1;
      var init := y[..n];
      assert y == init + [y[n]];
      assert x + y == (x + init) + [y[n]];
      var kept := (if Shown(y[n], search) then [y[n]] else []);
      calc {
        Filtered(x + y, search);
        { FilteredSnoc(x + init, y[n], search); }
        Filtered(x + init, search) + kept;
        { FilteredAppend(x, init, search); }
        (Filtered(x, search) + Filtered(init, search)) + kept;
        Filtered(x, search) + (Filtered(init, search) + kept);
        { FilteredSnoc(init, y[n], search); }
        Filtered(x, search) + Filtered(y, search);
      }
    }
  }

  /** One more element is appended to the result iff it is kept. */
  lemma FilteredSnoc(s: seq<Product>, e: Product, search: string)
    ensures Filtered(s + [e], search) == Filtered(s, search) + (if Shown(e, search) then [e] else [])
  {
    assert (s + [e])[..|s|] == s;
  }

  lemma ContainsEmpty(t: string)
    ensures Contains(t, [])
  {
    assert OccursAt(t, [], 0);
  }

  /** Filtering the full catalog in the page shows the same products as asking the server to
      search for the same text, when the text holds no wildcard or escape character. */
  lemma ClientFilterAgreesWithServer(t: Tables, all: seq<Product>, s: string, p: Product,
                                     sort: Products.QueryValue, order: Products.QueryValue)
    requires forall q :: q in all <==> q in t.products.Values
    requires Plain(s) && Products.Storable(s) && !order.Many?
    ensures p in Filtered(all, s) <==> p in Products.ListProducts(t, Products.Text(s), sort, order).body.products
  {
    Products.PlainSearchIsSubstring(t, s, sort, order, p);
    if s == [] {
      ContainsEmpty(Lower(p.name));
    }
  }
}
