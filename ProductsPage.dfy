/** The products page of the web client: its sort toggle, the single open cell edit, and the
    local copy of the product list it updates after each successful request. */
module ProductsPage {
  import opened Wrappers
  import opened Strings
  import opened Schema
  import Products
  import Http

  /** The columns whose headers sort the table. */
  const HeaderColumns: seq<string> := ["id", "name", "sku", "price_cents", "stock_qty"]

  const FormInvalid: string := "All fields are required and price must be ≥ 0"

  /** The answer to a request the page sends: the decoded body, or the error message. */
  datatype Reply<T> = Done(value: T) | Failed(message: string)

  /** The message a browser's `res.json()` rejects with when the body is empty. */
  const EmptyBodyError: string := "Unexpected end of JSON input"

  predicate IsOk(status: int) {
    200 <= status <= 299
  }

  /** The message the client throws for an error answer: the body's `error`, else the status. */
  function FailureMessage(res: Http.Response): string {
    match res.body
    case ErrorJson(e) => e
    case ValidationJson(e, _) => e
    case _ => "HTTP " + IntToString(res.status)
  }

  /** The client's `request` as written: it parses the body as JSON before it looks at the
      status, so an empty body fails whatever the status says. */
  function RequestAsWritten(res: Http.Response): (r: Reply<Http.Body>)
    ensures r.Done? <==> IsOk(res.status) && !res.body.NoContent?
    ensures res.body.NoContent? ==> r == Failed(EmptyBodyError)
    ensures r.Done? ==> r.value == res.body
  {
    if res.body.NoContent? then Failed(EmptyBodyError)
    else if !IsOk(res.status) then Failed(FailureMessage(res))
    else Done(res.body)
  }

  /** `request` as evidently intended: the status decides, and an empty success is a success.
      It differs from the client as written only on empty bodies. */
  function Request(res: Http.Response): (r: Reply<Http.Body>)
    ensures r.Done? <==> IsOk(res.status)
    ensures r.Done? ==> r.value == res.body
    ensures r.Failed? ==> r.message == FailureMessage(res)
    ensures !res.body.NoContent? ==> r == RequestAsWritten(res)
  {
    if IsOk(res.status) then Done(res.body) else Failed(FailureMessage(res))
  }

  datatype Field = PriceCents | StockQty

  /** The cell being edited. */
  datatype Edit = Edit(id: int, field: Field)

  /** The create form's four inputs, as text. */
  datatype Form = Form(name: string, sku: string, priceCents: string, stockQty: string)

  const BlankForm: Form := Form("", "", "", "0")

  /** The list shows each product as the store holds it. */
  ghost predicate Mirrors(ps: seq<Product>, m: map<int, Product>) {
    forall i :: 0 <= i < |ps| ==> ps[i].id in m && m[ps[i].id] == ps[i]
  }

  /** `ps.map(p => p.id === id ? updated : p)`. */
  function ReplaceById(ps: seq<Product>, id: int, updated: Product): (r: seq<Product>)
    ensures |r| == |ps|
    ensures forall i :: 0 <= i < |ps| && ps[i].id != id ==> r[i] == ps[i]
    ensures forall i :: 0 <= i < |ps| && ps[i].id == id ==> r[i] == updated
  {
    seq(|ps|, i requires 0 <= i < |ps| => if ps[i].id == id then updated else ps[i])
  }

  /** `ps.filter(p => p.id !== id)`. */
  function RemoveById(ps: seq<Product>, id: int): (r: seq<Product>)
    ensures forall p :: p in r <==> p in ps && p.id != id
    ensures |r| <= |ps|
    ensures (forall i :: 0 <= i < |ps| ==> ps[i].id != id) ==> r == ps
    ensures |ps| == 1 ==> r == (if ps[0].id == id then [] else ps)
  {
    if ps == [] then []
    else
      var n := |ps| - 1;
      assert ps == ps[..n] + [ps[n]];
      RemoveById(ps[..n], id) + (if ps[n].id == id then [] else [ps[n]])
  }

  /** Removing from each part of the list removes from the whole, keeping the order. */
  lemma {:induction false} RemoveByIdAppend(x: seq<Product>, y: seq<Product>, id: int)
    ensures RemoveById(x + y, id) == RemoveById(x, id) + RemoveById(y, id)
    decreases |y|
  {
    if y == [] {
      assert x + y == x;
    } else {
      var n := |y| - 1;
      var init := y[..n];
      assert y == init + [y[n]];
      assert x + y == (x + init) + [y[n]];
      var kept := (if y[n].id == id then [] else [y[n]]);
      calc {
        RemoveById(x + y, id);
        { RemoveByIdSnoc(x + init, y[n], id); }
        RemoveById(x + init, id) + kept;
        { RemoveByIdAppend(x, init, id); }
        (RemoveById(x, id) + RemoveById(init, id)) + kept;
        RemoveById(x, id) + (RemoveById(init, id) + kept);
        { RemoveByIdSnoc(init, y[n], id); }
        RemoveById(x, id) + RemoveById(y, id);
      }
    }
  }

  /** One more element is appended to the result iff it is kept. */
  lemma RemoveByIdSnoc(s: seq<Product>, e: Product, id: int)
    ensures RemoveById(s + [e], id) == RemoveById(s, id) + (if e.id == id then [] else [e])
  {
    assert (s + [e])[..|s|] == s;
  }

  /** After a successful PATCH the list shows the row the server now holds. */
  lemma ReplaceKeepsMirror(ps: seq<Product>, m: map<int, Product>, updated: Product)
    requires Mirrors(ps, m) && updated.id in m
    ensures Mirrors(ReplaceById(ps, updated.id, updated), m[updated.id := updated])
  {
  }

  /** After a successful DELETE the list shows only rows the server still holds. */
  lemma RemoveKeepsMirror(ps: seq<Product>, m: map<int, Product>, id: int)
    requires Mirrors(ps, m)
    ensures Mirrors(RemoveById(ps, id), m - {id})
  {
    var r := RemoveById(ps, id);
    forall i | 0 <= i < |r| ensures r[i].id in m - {id} && (m - {id})[r[i].id] == r[i] {
      assert r[i] in ps;
      var j :| 0 <= j < |ps| && ps[j] == r[i];
    }
  }

  /** As written, the client turns the server's empty 204 for a deleted product into a
      failure, so the page keeps showing a row the catalog no longer holds. */
  lemma DeleteRejectedAsWritten(ps: seq<Product>, m: map<int, Product>, i: nat)
    requires Mirrors(ps, m) && i < |ps|
    ensures RequestAsWritten(Http.Response(204, Http.NoContent)) == Failed(EmptyBodyError)
    ensures !Mirrors(ps, m - {ps[i].id})
  {
    assert ps[i].id !in m - {ps[i].id};
  }

  /** With the intended client, the same 204 confirms the delete and the page drops the row,
      still mirroring the catalog. */
  lemma DeleteConfirmed(ps: seq<Product>, m: map<int, Product>, id: int)
    requires Mirrors(ps, m)
    ensures Request(Http.Response(204, Http.NoContent)) == Done(Http.NoContent)
    ensures Mirrors(RemoveById(ps, id), m - {id})
    ensures forall p :: p in RemoveById(ps, id) ==> p.id != id
  {
    RemoveKeepsMirror(ps, m, id);
  }

  /** After a successful POST the list shows the new row first. */
  lemma PrependKeepsMirror(ps: seq<Product>, m: map<int, Product>, p: Product)
    requires Mirrors(ps, m) && p.id !in m
    ensures Mirrors([p] + ps, m[p.id := p])
  {
  }

  /** The server sorts by exactly the column the page asks for. */
  lemma HeaderSortIsHonoured(col: string)
    requires col in HeaderColumns
    ensures Products.SafeSort(Products.Text(col)) == col
  {
  }

  /** The server sorts in exactly the direction the page asks for. */
  lemma DirectionIsHonoured(desc: bool)
    ensures Products.SafeOrder(Products.Text(if desc then "desc" else "asc")) == Ok(desc)
  {
    assert Lower("desc") == "desc";
    if !desc {
      assert Lower("asc") != "desc" by {
        assert |Lower("asc")| == 3;
      }
    }
  }

  /** The form's own check leaves the stock to the server: a request it lets through fails
      the create schema exactly when the stock is negative. */
  lemma FormCheckLeavesStockToServer(form: Form, priceCents: int, stockQty: int)
    requires form.name != [] && form.sku != [] && priceCents >= 0
    ensures Products.ValidNewProduct(Products.NewProduct(form.name, form.sku, priceCents, Some(stockQty)))
      <==> stockQty >= 0
  {
  }

  /** The single-field patch sent for a committed edit. */
  function EditPatch(field: Field, value: int): (patch: Products.ProductPatch)
    ensures value >= 0 ==> Products.ValidPatch(patch)
    ensures patch.priceCents.Some? <==> field == PriceCents
    ensures patch.stockQty.Some? <==> field == StockQty
    ensures forall p: Product :: Products.Patched(p, patch) ==
                                 (if field == PriceCents then p.(priceCents := value) else p.(stockQty := value))
  {
    match field
    case PriceCents => Products.ProductPatch(Some(value), None)
    case StockQty => Products.ProductPatch(None, Some(value))
  }

  class Page {
    var products: seq<Product>
    var sort: string
    var descending: bool
    var error: string
    var edit: Option<Edit>
    var confirmDelete: Option<int>
    var form: Form
    var formError: string
    var showForm: bool

    /** The header only ever selects one of its own columns. */
    ghost predicate Valid()
      reads this
    {
      sort in HeaderColumns
    }

    constructor ()
      ensures Valid()
      ensures products == [] && sort == "id" && !descending && error == []
      ensures edit.None? && confirmDelete.None? && form == BlankForm && formError == [] && !showForm
    {
      products := [];
      sort := "id";
      descending := false;
      error := [];
      edit := None;
      confirmDelete := None;
      form := BlankForm;
      formError := [];
      showForm := false;
    }

    /** A header click: the same column flips the direction, another one sorts ascending on it. */
    method HandleSort(col: string)
      requires Valid() && col in HeaderColumns
      modifies this
      ensures Valid()
      ensures sort == col
      ensures old(sort) == col ==> descending == !old(descending)
      ensures old(sort) != col ==> !descending
      ensures products == old(products) && edit == old(edit) && form == old(form)
      ensures error == old(error) && formError == old(formError)
      ensures confirmDelete == old(confirmDelete) && showForm == old(showForm)
    {
      if sort == col {
        descending := !descending;
      } else {
        sort := col;
        descending := false;
      }
    }

    /** A click on an editable cell opens it only when no edit is open. */
    method StartEdit(id: int, field: Field)
      requires Valid()
      modifies this
      ensures Valid()
      ensures old(edit).None? ==> edit == Some(Edit(id, field))
      ensures old(edit).Some? ==> edit == old(edit)
      ensures products == old(products) && sort == old(sort) && descending == old(descending)
      ensures error == old(error) && form == old(form) && formError == old(formError)
      ensures confirmDelete == old(confirmDelete) && showForm == old(showForm)
    {
      if edit.None? {
        edit := Some(Edit(id, field));
      }
    }

    /** Leaving or confirming the open cell. `value` is the number the input parses to (None
        when it is not a number); `reply` is the server's answer to the patch, if one is sent.
        Returns the request sent. */
    method CommitEdit(value: Option<int>, reply: Reply<Product>) returns (sent: Option<(int, Products.ProductPatch)>)
      requires Valid()
      modifies this
      ensures Valid()
      ensures old(edit).None? ==> sent.None? && edit.None? && products == old(products) && error == old(error)
      ensures old(edit).Some? && (value.None? || value.value < 0) ==>
        sent.None? && edit.None? && products == old(products) && error == old(error)
      ensures old(edit).Some? && value.Some? && value.value >= 0 ==>
        && sent == Some((old(edit).value.id, EditPatch(old(edit).value.field, value.value)))
        && Products.ValidPatch(sent.value.1)
      ensures old(edit).Some? && value.Some? && value.value >= 0 && reply.Done? ==>
        && products == ReplaceById(old(products), old(edit).value.id, reply.value)
        && edit.None? && error == old(error)
      ensures old(edit).Some? && value.Some? && value.value >= 0 && reply.Failed? ==>
        products == old(products) && edit == old(edit) && error == reply.message
      ensures sort == old(sort) && descending == old(descending) && form == old(form)
      ensures formError == old(formError) && confirmDelete == old(confirmDelete) && showForm == old(showForm)
    {
      sent := None;
      if edit.None? {
        return;
      }
      var e := edit.value;
      if value.None? || value.value < 0 {
        edit := None;
        return;
      }
      sent := Some((e.id, EditPatch(e.field, value.value)));
      match reply
      case Done(updated) =>
        products := ReplaceById(products, e.id, updated);
        edit := None;
      case Failed(message) =>
        error := message;
    }

    /** The confirmed delete button; `reply` is the server's answer as the client decodes it. */
    method HandleDelete(id: int, reply: Reply<Http.Body>)
      requires Valid()
      modifies this
      ensures Valid()
      ensures reply.Done? ==> products == RemoveById(old(products), id) && confirmDelete.None? && error == old(error)
      ensures reply.Failed? ==> products == old(products) && confirmDelete == old(confirmDelete) && error == reply.message
      ensures sort == old(sort) && descending == old(descending) && edit == old(edit)
      ensures form == old(form) && formError == old(formError) && showForm == old(showForm)
    {
      match reply
      case Done(_) =>
        products := RemoveById(products, id);
        confirmDelete := None;
      case Failed(message) =>
        error := message;
    }

    /** Submitting the create form. `priceCents` and `stockQty` are what its price and stock
        inputs parse to (None when the price is not a number); `reply` is the server's answer.
        Returns the request sent. */
    method HandleCreate(priceCents: Option<int>, stockQty: int, reply: Reply<Product>)
      returns (sent: Option<Products.NewProduct>)
      requires Valid()
      modifies this
      ensures Valid()
      ensures sent.Some? <==> old(form.name) != [] && old(form.sku) != [] && priceCents.Some? && priceCents.value >= 0
      ensures sent.None? ==>
        formError == FormInvalid && products == old(products) && form == old(form) && showForm == old(showForm)
      ensures sent.Some? ==>
        sent.value == Products.NewProduct(old(form.name), old(form.sku), priceCents.value, Some(stockQty))
      ensures sent.Some? && reply.Done? ==>
        products == [reply.value] + old(products) && form == BlankForm && !showForm && formError == []
      ensures sent.Some? && reply.Failed? ==>
        products == old(products) && form == old(form) && showForm == old(showForm) && formError == reply.message
      ensures sort == old(sort) && descending == old(descending) && edit == old(edit)
      ensures error == old(error) && confirmDelete == old(confirmDelete)
    {
      formError := [];
      if form.name == [] || form.sku == [] || priceCents.None? || priceCents.value < 0 {
        formError := FormInvalid;
        return None;
      }
      sent := Some(Products.NewProduct(form.name, form.sku, priceCents.value, Some(stockQty)));
      match reply
      case Done(p) =>
        products := [p] + products;
        form := BlankForm;
        showForm := false;
      case Failed(message) =>
        formError := message;
    }
  }
}
