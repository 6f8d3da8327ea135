/** What a handler can throw, the JSON bodies it can answer with, and the error-handling
    middleware that turns a thrown value into the one response the client receives. */
module Http {
  import opened Wrappers
  import opened Strings
  import opened Schema

  /** One element of a validation issue's path: an object key or an array index. */
  datatype PathKey = Field(name: string) | Index(i: nat)

  /** One issue of a schema validation error. */
  datatype Issue = Issue(path: seq<PathKey>, message: string)

  /** What reaches the error handler: a schema validation error, an Error (carrying the
      `status` property the handlers attach, or none, as for database errors), or a value
      that is not an Error at all. */
  datatype Thrown =
    | ValidationError(issues: seq<Issue>)
    | Error(message: string, status: Option<int>)
    | NonError

  /** A `:id` route parameter after parseInt. */
  datatype ParamId = Num(n: int) | NaN

  datatype Detail = Detail(path: string, message: string)

  /** A line of an order's detail: the order item joined with its product. */
  datatype ItemView = ItemView(id: int, qty: int, priceAtPurchase: int, productName: string, productSku: string, productId: int)

  /** A row of the order list. */
  datatype OrderSummary = OrderSummary(id: int, createdAt: nat, totalCents: int, itemCount: int)

  datatype Body =
    | ErrorJson(error: string)
    | ValidationJson(error: string, details: seq<Detail>)
    | CreatedOrderJson(id: int, createdAt: nat)
    | ProductJson(product: Product)
    | ProductListJson(products: seq<Product>)
    | OrderListJson(orders: seq<OrderSummary>)
    | OrderDetailJson(order: Order, items: seq<ItemView>, totalCents: int)
    | NoContent

  datatype Response = Response(status: int, body: Body)

  const GenericMessage: string := "Internal server error"

  /** How PostgreSQL rejects a parameter that does not fit an INTEGER column; it carries no
      `status`. */
  const IntegerOutOfRange: Thrown := Error("value out of range for type integer", None)

  /** How PostgreSQL rejects NaN as an INTEGER parameter. */
  const NotAnInteger: Thrown := Error("invalid input syntax for type integer: \"NaN\"", None)

  /** The parameter can be bound to an INTEGER placeholder. */
  predicate BindsAsInt4(id: ParamId) {
    id.Num? && InInt4(id.n)
  }

  /** The database error a query raises for a parameter that cannot be bound. */
  function BindError(id: ParamId): Thrown {
    if id.NaN? then NotAnInteger else IntegerOutOfRange
  }

  function PathKeyText(k: PathKey): string {
    match k
    case Field(name) => name
    case Index(i) => Decimal(i)
  }

  /** The issue path joined with ".". */
  function PathString(path: seq<PathKey>): string {
    Join(seq(|path|, i requires 0 <= i < |path| => PathKeyText(path[i])), ".")
  }

  function Details(issues: seq<Issue>): (ds: seq<Detail>)
    ensures |ds| == |issues|
    ensures forall i :: 0 <= i < |issues| ==> ds[i] == Detail(PathString(issues[i].path), issues[i].message)
  {
    seq(|issues|, i requires 0 <= i < |issues| => Detail(PathString(issues[i].path), issues[i].message))
  }

  /** `errorHandler`: validation errors first, then Errors by their status (default 500),
      then anything else; a message is shown only for a status below 500. */
  function ErrorHandler(err: Thrown): (r: Response)
    ensures r.body.ValidationJson? <==> err.ValidationError?
    ensures err.ValidationError? ==>
      r.status == 400 && r.body.error == "Validation error" && r.body.details == Details(err.issues)
    ensures err.Error? ==> r.status == err.status.GetOr(500)
    ensures err.Error? && r.status < 500 ==> r.body == ErrorJson(err.message)
    ensures r.status >= 500 ==> r.body == ErrorJson(GenericMessage)
    ensures err.NonError? ==> r.status == 500
  {
    match err
    case ValidationError(issues) => Response(400, ValidationJson("Validation error", Details(issues)))
    case Error(message, status) =>
      var code := status.GetOr(500);
      Response(code, ErrorJson(if code < 500 then message else GenericMessage))
    case NonError => Response(500, ErrorJson(GenericMessage))
  }

  /** A database error (an Error without a status) reaches the client as a bare 500. */
  lemma DatabaseErrorsAreOpaque(message: string)
    ensures ErrorHandler(Error(message, None)) == Response(500, ErrorJson(GenericMessage))
  {
  }

  /** A nested issue path is reported with its keys and indices joined by dots. */
  lemma NestedPathIsDotted()
    ensures PathString([Field("items"), Index(12), Field("qty")]) == "items.12.qty"
  {
    assert Decimal(12) == Decimal(1) + [DigitChar(2)] == "12";
    var keys := seq(3, i requires 0 <= i < 3 => PathKeyText([Field("items"), Index(12), Field("qty")][i]));
    assert keys == ["items", "12", "qty"];
    assert keys[..2] == ["items", "12"];
    assert Join(keys[..2], ".") == "items.12" by {
      assert keys[..2][..1] == ["items"];
    }
  }
}
