/** The products routes: list with search and sort, create, field-wise patch, and delete
    guarded by the order items that reference the product. */
module Products {
  import opened Wrappers
  import opened Strings
  import opened Sorting
  import opened Like
  import opened Schema
  import opened Http

  const EmptyText: string := "String must contain at least 1 character(s)"
  const Negative: string := "Number must be greater than or equal to 0"
  const NothingToPatch: string := "At least one of price_cents or stock_qty must be provided"
  const ProductNotFound: string := "Product not found"
  const StillOrdered: string := "Cannot delete a product that is part of existing orders"

  /** PostgreSQL refuses a text parameter holding a NUL character. */
  const NulInText: Thrown := Error("invalid byte sequence for encoding \"UTF8\": 0x00", None)
  /** The UNIQUE constraint on products.sku refusing an insert. */
  const DuplicateSku: Thrown := Error("duplicate key value violates unique constraint \"products_sku_key\"", None)

  /** The text can be stored in a TEXT column. */
  predicate Storable(s: string) {
    forall i :: 0 <= i < |s| ==> s[i] != 0 as char
  }

  // ----- GET /products -----

  /** A query-string value: missing, given once, or given several times. */
  datatype QueryValue = Absent | Text(s: string) | Many(values: seq<string>)

  const AllowedSorts: seq<string> := ["id", "name", "sku", "price_cents", "stock_qty", "created_at"]

  /** The search text as it is spliced into the pattern; a repeated parameter is an array,
      which renders as its elements joined by commas. */
  function SearchText(q: QueryValue): string {
    match q
    case Absent => ""
    case Text(s) => s
    case Many(vs) => Join(vs, ",")
  }

  /** The ORDER BY column: the requested one when it is on the allow-list, else `id`. */
  function SafeSort(q: QueryValue): (c: string)
    ensures c in AllowedSorts
    ensures q.Text? && q.s in AllowedSorts ==> c == q.s
    ensures !(q.Text? && q.s in AllowedSorts) ==> c == "id"
  {
    if q.Text? && q.s in AllowedSorts then q.s else "id"
  }

  /** The ORDER BY direction, true for DESC: only a value that lower-cases to `desc`. A
      repeated parameter is an array, on which `toLowerCase` throws. */
  function SafeOrder(q: QueryValue): (r: Result<bool, Thrown>)
    ensures r.Err? <==> q.Many?
    ensures r.Ok? ==> (r.value <==> q.Text? && Lower(q.s) == "desc")
  {
    match q
    case Absent => Ok(false)
    case Text(s) => Ok(Lower(s) == "desc")
    case Many(_) => Err(Error("order.toLowerCase is not a function", None))
  }

  /** The sort key of a product under the given column. */
  function SortKey(column: string, p: Product): Key {
    if column == "name" then TextKey(p.name)
    else if column == "sku" then TextKey(p.sku)
    else if column == "price_cents" then IntKey(p.priceCents)
    else if column == "stock_qty" then IntKey(p.stockQty)
    else if column == "created_at" then IntKey(p.createdAt)
    else IntKey(p.id)
  }

  function ColumnKey(column: string): Product -> Key {
    p => SortKey(column, p)
  }

  /** `name ILIKE pattern OR sku ILIKE pattern`. */
  predicate Hit(toks: seq<LikeToken>, p: Product) {
    Matches(toks, p.name) || Matches(toks, p.sku)
  }

  /** The WHERE clause over rows in scan order. */
  function Where(rows: seq<Product>, toks: seq<LikeToken>): (r: seq<Product>)
    ensures forall p :: p in r <==> p in rows && Hit(toks, p)
    ensures (forall i :: 0 <= i < |rows| ==> Hit(toks, rows[i])) ==> r == rows
    ensures |rows| == 1 ==> r == (if Hit(toks, rows[0]) then rows else [])
    ensures NoRepeats(rows) ==> NoRepeats(r)
  {
    if rows == [] then []
    else
      var n := |rows| - 1;
      var prefix := Where(rows[..n], toks);
      assert rows == rows[..n] + [rows[n]];
      assert NoRepeats(rows) ==> NoRepeats(rows[..n]) && rows[n] !in prefix;
      if Hit(toks, rows[n]) then
        NoRepeatsSnoc(prefix, rows[n]);
        prefix + [rows[n]]
      else prefix
  }

  /** The scan filters each part of the table on its own and keeps their order. */
  lemma {:induction false} WhereAppend(x: seq<Product>, y: seq<Product>, toks: seq<LikeToken>)
    ensures Where(x + y, toks) == Where(x, toks) + Where(y, toks)
    decreases |y|
  {
    if y == [] {
      assert x + y == x;
    } else {
      var n := |y| - 1;
      var init := y[..n];
      assert y == init + [y[n]];
      assert x + y == (x + init) + [y[n]];
      var kept := (if Hit(toks, y[n]) then [y[n]] else []);
      calc {
        Where(x + y, toks);
        { WhereSnoc(x + init, y[n], toks); }
        Where(x + init, toks) + kept;
        { WhereAppend(x, init, toks); }
        (Where(x, toks) + Where(init, toks)) + kept;
        Where(x, toks) + (Where(init, toks) + kept);
        { WhereSnoc(init, y[n], toks); }
        Where(x, toks) + Where(y, toks);
      }
    }
  }

  /** One more element is appended to the result iff it is kept. */
  lemma WhereSnoc(s: seq<Product>, e: Product, toks: seq<LikeToken>)
    ensures Where(s + [e], toks) == Where(s, toks) + (if Hit(toks, e) then [e] else [])
  {
    assert (s + [e])[..|s|] == s;
  }

  /** GET /products on the state `t`, with its three query parameters. */
  function ListProducts(t: Tables, search: QueryValue, sort: QueryValue, order: QueryValue): Response {
    var column := SafeSort(sort);
    match SafeOrder(order)
    case Err(e) => ErrorHandler(e)
    case Ok(desc) =>
      var pattern := "%" + SearchText(search) + "%";
      if !Storable(pattern) then ErrorHandler(NulInText)
      else
        EndsInPercentParses("%" + SearchText(search));
        var rows := Where(ValuesByKey(t.products), Tokens(pattern).value);
        Response(200, ProductListJson(SortBy(rows, ColumnKey(column), desc)))
  }

  /** Wrapping a search in `%` keeps it storable exactly when it was. */
  lemma PatternStorable(s: string)
    ensures Storable("%" + s + "%") <==> Storable(s)
  {
    var pattern := "%" + s + "%";
    assert forall i :: 0 <= i < |s| ==> pattern[i + 1] == s[i];
    assert pattern[0] == '%' && pattern[|pattern| - 1] == '%';
  }

  /** The listing fails only for a repeated `order` parameter or a NUL in the search. */
  lemma ListProductsFails(t: Tables, search: QueryValue, sort: QueryValue, order: QueryValue)
    ensures ListProducts(t, search, sort, order).status == 500 <==>
      order.Many? || !Storable(SearchText(search))
  {
    PatternStorable(SearchText(search));
  }

  /** Otherwise it holds exactly the products whose name or SKU matches the pattern, sorted on
      the safe column in the safe direction. */
  lemma ListProductsSpec(t: Tables, search: QueryValue, sort: QueryValue, order: QueryValue)
    requires !order.Many? && Storable(SearchText(search))
    ensures
      var r := ListProducts(t, search, sort, order);
      var toks := Tokens("%" + SearchText(search) + "%");
      && r.status == 200 && r.body.ProductListJson? && toks.Some?
      && (forall p :: p in r.body.products <==> p in t.products.Values && Hit(toks.value, p))
      && SortedBy(r.body.products, ColumnKey(SafeSort(sort)), SafeOrder(order).value)
      && ((forall k :: k in t.products ==> t.products[k].id == k) ==>
            forall i, j :: 0 <= i < j < |r.body.products| ==> r.body.products[i].id != r.body.products[j].id)
  {
    ListProductsSorts(t, search, sort, order);
    var toks := Tokens("%" + SearchText(search) + "%").value;
    var rows := Where(ValuesByKey(t.products), toks);
    var key := ColumnKey(SafeSort(sort));
    var desc := SafeOrder(order).value;
    SortByMembers(rows, key, desc);
    if forall k :: k in t.products ==> t.products[k].id == k {
      ListedOnce(t, toks, SortBy(rows, key, desc));
    }
  }

  /** The successful listing is the sorted scan of the matching rows. */
  lemma ListProductsSorts(t: Tables, search: QueryValue, sort: QueryValue, order: QueryValue)
    requires !order.Many? && Storable(SearchText(search))
    ensures SafeOrder(order).Ok? && Tokens("%" + SearchText(search) + "%").Some?
    ensures ListProducts(t, search, sort, order) ==
      Response(200, ProductListJson(SortBy(Where(ValuesByKey(t.products), Tokens("%" + SearchText(search) + "%").value),
                                           ColumnKey(SafeSort(sort)), SafeOrder(order).value)))
  {
    PatternStorable(SearchText(search));
    EndsInPercentParses("%" + SearchText(search));
  }

  /** Any arrangement of the rows the scan keeps, from a catalog keyed by id, shows each id
      at most once. */
  lemma ListedOnce(t: Tables, toks: seq<LikeToken>, listed: seq<Product>)
    requires forall k :: k in t.products ==> t.products[k].id == k
    requires multiset(listed) == multiset(Where(ValuesByKey(t.products), toks))
    ensures forall i, j :: 0 <= i < j < |listed| ==> listed[i].id != listed[j].id
  {
    var rows := Where(ValuesByKey(t.products), toks);
    ValuesByKeyNoRepeats(t.products);
    NoRepeatsPermutation(rows, listed);
    forall i, j | 0 <= i < j < |listed| ensures listed[i].id != listed[j].id {
      assert listed[i] in multiset(rows) && listed[j] in multiset(rows);
      assert listed[i] in t.products.Values && listed[j] in t.products.Values;
    }
  }

  /** For a search without `%`, `_` or backslash, the listing holds exactly the products whose
      name or SKU contains the search text, ignoring case. */
  lemma PlainSearchIsSubstring(t: Tables, s: string, sort: QueryValue, order: QueryValue, p: Product)
    requires Plain(s) && Storable(s) && !order.Many?
    ensures p in ListProducts(t, Text(s), sort, order).body.products <==>
      p in t.products.Values && (Contains(Lower(p.name), Lower(s)) || Contains(Lower(p.sku), Lower(s)))
  {
    ListProductsSpec(t, Text(s), sort, order);
    SubstringSearch(s, p.name);
    SubstringSearch(s, p.sku);
  }

  // ----- POST /products -----

  /** The body of POST /products after JSON decoding; `stockQty` may be left out. */
  datatype NewProduct = NewProduct(name: string, sku: string, priceCents: int, stockQty: Option<int>)

  predicate ValidNewProduct(b: NewProduct) {
    && |b.name| > 0 && |b.sku| > 0 && b.priceCents >= 0
    && (b.stockQty.Some? ==> b.stockQty.value >= 0)
  }

  /** `createProductSchema.parse`: one issue per failing field, in field order. */
  function CreateIssues(b: NewProduct): (issues: seq<Issue>)
    ensures issues == [] <==> ValidNewProduct(b)
    ensures forall i :: 0 <= i < |issues| ==> issues[i].message in {EmptyText, Negative}
  {
    (if |b.name| > 0 then [] else [Issue([Field("name")], EmptyText)])
    + (if |b.sku| > 0 then [] else [Issue([Field("sku")], EmptyText)])
    + (if b.priceCents >= 0 then [] else [Issue([Field("price_cents")], Negative)])
    + (if b.stockQty.None? || b.stockQty.value >= 0 then [] else [Issue([Field("stock_qty")], Negative)])
  }

  /** The parameters of the INSERT can all be bound. */
  predicate CreateBinds(b: NewProduct) {
    Storable(b.name) && Storable(b.sku) && InInt4(b.priceCents) && InInt4(b.stockQty.GetOr(0))
  }

  /** The database error of a parameter that cannot be bound. */
  function CreateBindError(b: NewProduct): Thrown {
    if Storable(b.name) && Storable(b.sku) then IntegerOutOfRange else NulInText
  }

  /** The row the INSERT creates: the next SERIAL id, stock 0 unless given, stamped now. */
  function NewRow(t: Tables, b: NewProduct): Product {
    Product(t.nextProductId, b.name, b.sku, b.priceCents, b.stockQty.GetOr(0), t.clock)
  }

  function Inserted(t: Tables, b: NewProduct): Tables {
    t.(products := t.products[t.nextProductId := NewRow(t, b)], nextProductId := t.nextProductId + 1, clock := t.clock + 1)
  }

  /** A valid, bindable product with a fresh SKU keeps every table constraint. */
  lemma InsertedOk(t: Tables, b: NewProduct)
    requires TablesOk(t) && ValidNewProduct(b) && CreateBinds(b) && !SkuTaken(t.products, b.sku)
    ensures TablesOk(Inserted(t, b))
    ensures NewRow(t, b).stockQty == (if b.stockQty.None? then 0 else b.stockQty.value)
  {
    var t' := Inserted(t, b);
    assert SkusUnique(t'.products) by {
      forall x, y | x in t'.products && y in t'.products && x != y
        ensures t'.products[x].sku != t'.products[y].sku
      {
        if x == t.nextProductId {
          assert y in t.products;
        } else if y == t.nextProductId {
          assert x in t.products;
        }
      }
    }
    OrdersOkLater(t.orders, t.nextOrderId, t.clock, t'.clock);
    ItemsOkWider(t.items, t.orders, t.orders, t.products, t'.products, t.nextItemId, t.nextItemId);
  }

  /** A refused duplicate SKU still draws its SERIAL number. */
  lemma SkuClashOk(t: Tables)
    requires TablesOk(t)
    ensures TablesOk(t.(nextProductId := t.nextProductId + 1))
  {
  }

  /** POST /products against the store. */
  method CreateProduct(db: Store, b: NewProduct) returns (res: Response)
    requires db.Valid()
    modifies db
    ensures db.Valid()
    ensures !ValidNewProduct(b) ==> res == ErrorHandler(ValidationError(CreateIssues(b))) && unchanged(db)
    ensures ValidNewProduct(b) && !CreateBinds(b) ==>
      res == ErrorHandler(CreateBindError(b)) && res.status == 500 && unchanged(db)
    ensures ValidNewProduct(b) && CreateBinds(b) && SkuTaken(old(db.products), b.sku) ==>
      && res == ErrorHandler(DuplicateSku) && res.status == 500
      && db.State() == old(db.State()).(nextProductId := old(db.nextProductId) + 1)
    ensures ValidNewProduct(b) && CreateBinds(b) && !SkuTaken(old(db.products), b.sku) ==>
      && res == Response(201, ProductJson(NewRow(old(db.State()), b)))
      && db.State() == Inserted(old(db.State()), b)
  {
    var issues := CreateIssues(b);
    if issues != [] {
      return ErrorHandler(ValidationError(issues));
    }
    if !CreateBinds(b) {
      return ErrorHandler(CreateBindError(b));
    }
    var t := db.State();
    if SkuTaken(t.products, b.sku) {
      SkuClashOk(t);
      db.Commit(t.(nextProductId := t.nextProductId + 1));
      return ErrorHandler(DuplicateSku);
    }
    InsertedOk(t, b);
    db.Commit(Inserted(t, b));
    res := Response(201, ProductJson(NewRow(t, b)));
  }

  // ----- PATCH /products/:id -----

  /** The body of PATCH /products/:id after JSON decoding. */
  datatype ProductPatch = ProductPatch(priceCents: Option<int>, stockQty: Option<int>)

  predicate ValidPatch(patch: ProductPatch) {
    && (patch.priceCents.Some? ==> patch.priceCents.value >= 0)
    && (patch.stockQty.Some? ==> patch.stockQty.value >= 0)
    && (patch.priceCents.Some? || patch.stockQty.Some?)
  }

  /** `patchProductSchema.parse`: field issues in field order, then the refinement's issue,
      which has an empty path. */
  function PatchIssues(patch: ProductPatch): (issues: seq<Issue>)
    ensures issues == [] <==> ValidPatch(patch)
    ensures patch.priceCents.None? && patch.stockQty.None? ==> issues == [Issue([], NothingToPatch)]
  {
    (if patch.priceCents.None? || patch.priceCents.value >= 0 then [] else [Issue([Field("price_cents")], Negative)])
    + (if patch.stockQty.None? || patch.stockQty.value >= 0 then [] else [Issue([Field("stock_qty")], Negative)])
    + (if patch.priceCents.Some? || patch.stockQty.Some? then [] else [Issue([], NothingToPatch)])
  }

  datatype Column = PriceCents | StockQty

  /** One `column = $n` of the SET list with the value bound to it. */
  datatype Assignment = Assignment(column: Column, value: int)

  /** The SET list, built as the handler pushes onto it: price first, then stock. */
  method SetClauses(patch: ProductPatch) returns (clauses: seq<Assignment>)
    ensures |clauses| <= 2
    ensures ValidPatch(patch) ==> clauses != []
    ensures forall i :: 0 <= i < |clauses| ==>
      (clauses[i].column == PriceCents ==> patch.priceCents == Some(clauses[i].value)) &&
      (clauses[i].column == StockQty ==> patch.stockQty == Some(clauses[i].value))
    ensures forall v :: patch.priceCents == Some(v) ==> Assignment(PriceCents, v) in clauses
    ensures forall v :: patch.stockQty == Some(v) ==> Assignment(StockQty, v) in clauses
    ensures forall p :: Apply(p, clauses) == Patched(p, patch)
  {
    clauses := [];
    if patch.priceCents.Some? {
      clauses := clauses + [Assignment(PriceCents, patch.priceCents.value)];
    }
    if patch.stockQty.Some? {
      clauses := clauses + [Assignment(StockQty, patch.stockQty.value)];
    }
    forall p ensures Apply(p, clauses) == Patched(p, patch) {
      ApplyInOrder(p, patch);
    }
  }

  /** The row after the UPDATE's SET list. */
  function Apply(p: Product, clauses: seq<Assignment>): Product {
    if clauses == [] then p
    else
      var c := clauses[|clauses| - 1];
      var q := Apply(p, clauses[..|clauses| - 1]);
      match c.column
      case PriceCents => q.(priceCents := c.value)
      case StockQty => q.(stockQty := c.value)
  }

  /** The row with the given fields replaced and the rest as it was. */
  function Patched(p: Product, patch: ProductPatch): Product {
    p.(priceCents := patch.priceCents.GetOr(p.priceCents), stockQty := patch.stockQty.GetOr(p.stockQty))
  }

  lemma ApplyInOrder(p: Product, patch: ProductPatch)
    ensures Apply(p, (if patch.priceCents.Some? then [Assignment(PriceCents, patch.priceCents.value)] else [])
                     + (if patch.stockQty.Some? then [Assignment(StockQty, patch.stockQty.value)] else []))
            == Patched(p, patch)
  {
    var a := if patch.priceCents.Some? then [Assignment(PriceCents, patch.priceCents.value)] else [];
    var b := if patch.stockQty.Some? then [Assignment(StockQty, patch.stockQty.value)] else [];
    var c := a + b;
    if a != [] {
      assert Apply(p, a) == Apply(p, []).(priceCents := patch.priceCents.value) by { assert a[..0] == []; }
    }
    if b != [] {
      assert c[..|c| - 1] == a;
    } else {
      assert c == a;
    }
  }

  /** The parameters of the UPDATE can all be bound. */
  predicate PatchBinds(patch: ProductPatch, id: ParamId) {
    && BindsAsInt4(id)
    && (patch.priceCents.Some? ==> InInt4(patch.priceCents.value))
    && (patch.stockQty.Some? ==> InInt4(patch.stockQty.value))
  }

  function PatchBindError(patch: ProductPatch, id: ParamId): Thrown {
    if id.NaN? then NotAnInteger else IntegerOutOfRange
  }

  /** A valid, bindable patch of an existing product keeps every table constraint. */
  lemma PatchedOk(t: Tables, k: int, patch: ProductPatch)
    requires TablesOk(t) && k in t.products && ValidPatch(patch) && PatchBinds(patch, Num(k))
    ensures TablesOk(t.(products := t.products[k := Patched(t.products[k], patch)]))
  {
    var ps := t.products[k := Patched(t.products[k], patch)];
    assert forall x :: x in ps ==> ps[x].sku == t.products[x].sku;
    ItemsOkWider(t.items, t.orders, t.orders, t.products, ps, t.nextItemId, t.nextItemId);
  }

  /** PATCH /products/:id against the store. */
  method PatchProduct(db: Store, id: ParamId, patch: ProductPatch) returns (res: Response)
    requires db.Valid()
    modifies db
    ensures db.Valid()
    ensures !ValidPatch(patch) ==> res == ErrorHandler(ValidationError(PatchIssues(patch))) && unchanged(db)
    ensures ValidPatch(patch) && !PatchBinds(patch, id) ==>
      res == ErrorHandler(PatchBindError(patch, id)) && res.status == 500 && unchanged(db)
    ensures ValidPatch(patch) && PatchBinds(patch, id) && id.n !in old(db.products) ==>
      res == Response(404, ErrorJson(ProductNotFound)) && unchanged(db)
    ensures ValidPatch(patch) && PatchBinds(patch, id) && id.n in old(db.products) ==>
      && res == Response(200, ProductJson(Patched(old(db.products)[id.n], patch)))
      && db.State() == old(db.State()).(products := old(db.products)[id.n := Patched(old(db.products)[id.n], patch)])
  {
    var issues := PatchIssues(patch);
    if issues != [] {
      return ErrorHandler(ValidationError(issues));
    }
    var clauses := SetClauses(patch);
    if !PatchBinds(patch, id) {
      return ErrorHandler(PatchBindError(patch, id));
    }
    var t := db.State();
    if id.n !in t.products {
      return Response(404, ErrorJson(ProductNotFound));
    }
    var row := Apply(t.products[id.n], clauses);
    PatchedOk(t, id.n, patch);
    db.Commit(t.(products := t.products[id.n := row]));
    res := Response(200, ProductJson(row));
  }

  // ----- DELETE /products/:id -----

  /** Deleting an unreferenced product keeps every table constraint. */
  lemma RemovedOk(t: Tables, k: int)
    requires TablesOk(t) && !Referenced(t.items, k)
    ensures TablesOk(t.(products := t.products - {k}))
  {
  }

  /** Once product `k` is deleted no listing shows a product with its id, whatever the query. */
  lemma DeletedIsNotListed(t: Tables, k: int, search: QueryValue, sort: QueryValue, order: QueryValue)
    requires TablesOk(t) && !Referenced(t.items, k)
    requires ListProducts(t.(products := t.products - {k}), search, sort, order).body.ProductListJson?
    ensures forall p :: p in ListProducts(t.(products := t.products - {k}), search, sort, order).body.products ==> p.id != k
  {
    var t' := t.(products := t.products - {k});
    ListProductsFails(t', search, sort, order);
    ListProductsSpec(t', search, sort, order);
  }

  /** DELETE /products/:id against the store. */
  method DeleteProduct(db: Store, id: ParamId) returns (res: Response)
    requires db.Valid()
    modifies db
    ensures db.Valid()
    ensures !BindsAsInt4(id) ==> res == ErrorHandler(BindError(id)) && res.status == 500 && unchanged(db)
    ensures BindsAsInt4(id) && Referenced(old(db.items), id.n) ==>
      res == Response(409, ErrorJson(StillOrdered)) && unchanged(db)
    ensures BindsAsInt4(id) && !Referenced(old(db.items), id.n) && id.n !in old(db.products) ==>
      res == Response(404, ErrorJson(ProductNotFound)) && unchanged(db)
    ensures BindsAsInt4(id) && !Referenced(old(db.items), id.n) && id.n in old(db.products) ==>
      && res == Response(204, NoContent)
      && db.State() == old(db.State()).(products := old(db.products) - {id.n})
  {
    if !BindsAsInt4(id) {
      return ErrorHandler(BindError(id));
    }
    var t := db.State();
    if Referenced(t.items, id.n) {
      return Response(409, ErrorJson(StillOrdered));
    }
    if id.n !in t.products {
      return Response(404, ErrorJson(ProductNotFound));
    }
    RemovedOk(t, id.n);
    db.Commit(t.(products := t.products - {id.n}));
    res := Response(204, NoContent);
  }
}
