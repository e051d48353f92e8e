/**
 * The create-sale dialog: its change handler, the two effects that derive
 * the product name, unit price and total, and the client-side stock guard
 * in front of `onCreate`.
 */
module SalesModal {
  import opened Wrappers
  import opened Domain
  import opened Form
  import opened Catalog
  import SalesController

  const InsufficientStockMessage := "Insufficient stock available for this product."
  const CreateFailedMessage := "Failed to create sale. Please try again."

  /** The dialog's first state; `saleId` and `now` stand for `v4()` and the current ISO time. */
  function Initial(saleId: string, now: string): (m: Modal)
    ensures m.form.id == saleId && m.form.createdAt == now
    ensures m.form.quantity == 0 && m.form.totalAmount == m.form.quantity * m.form.unitPrice
    ensures m.errorMessage == ""
  {
    Modal(Entry(saleId, "", "", 0, 0, 0, "", "", now), "")
  }

  /**
   * `handleChange` for a control named `f` whose text is `raw`. The dialog
   * parses only `quantity` and `unitPrice`; its `totalAmount` control is
   * read-only, so no change event carries that name.
   */
  function HandleChange(m: Modal, f: Field, raw: string, parse: string -> int): (r: Modal)
    requires f != TotalAmount
    ensures Get(r.form, f) == (if f == Quantity || f == UnitPrice then Number(parse(raw)) else Text(raw))
    ensures forall g :: g != f ==> Get(r.form, g) == Get(m.form, g)
    ensures f == ProductId || f == Quantity ==> r.errorMessage == ""
    ensures f != ProductId && f != Quantity ==> r.errorMessage == m.errorMessage
  {
    var form := Assign(m.form, f, raw, parse);
    if f == ProductId || f == Quantity then Modal(form, "") else Modal(form, m.errorMessage)
  }

  /** The effect on `[quantity, unitPrice]`: recompute the total. */
  function TotalEffect(e: Entry): (r: Entry)
    ensures r.totalAmount == r.quantity * r.unitPrice
    ensures forall g :: g != TotalAmount ==> Get(r, g) == Get(e, g)
  {
    SetNumber(e, TotalAmount, e.quantity * e.unitPrice)
  }

  /** The effect on `[productId, products]`: copy name and price of the selected product. */
  function ProductEffect(e: Entry, products: seq<Product>): (r: Entry)
    ensures forall i :: FirstMatch(products, e.productId, i) ==>
      r.productName == products[i].name && r.unitPrice == products[i].price
    ensures Absent(products, e.productId) ==> r.productName == "" && r.unitPrice == 0
    ensures forall g :: g != ProductName && g != UnitPrice ==> Get(r, g) == Get(e, g)
  {
    match FindProduct(products, e.productId)
    case Some(p) => SetNumber(SetText(e, ProductName, p.name), UnitPrice, p.price)
    case None => SetNumber(SetText(e, ProductName, ""), UnitPrice, 0)
  }

  /** The form once both effects have run after a change. */
  function Settle(e: Entry, products: seq<Product>): Entry {
    TotalEffect(ProductEffect(e, products))
  }

  /**
   * A settled form is a fixed point of both effects, so React's effect
   * loop stops there; its total is quantity times the selected product's
   * price, and only name, price and total differ from the form it came from.
   */
  lemma {:induction false} SettleIsStable(e: Entry, products: seq<Product>)
    ensures ProductEffect(Settle(e, products), products) == Settle(e, products)
    ensures TotalEffect(Settle(e, products)) == Settle(e, products)
    ensures Settle(e, products).totalAmount == e.quantity * Settle(e, products).unitPrice
    ensures forall g :: g != ProductName && g != UnitPrice && g != TotalAmount ==>
      Get(Settle(e, products), g) == Get(e, g)
  {
    var s := Settle(e, products);
    var p := ProductEffect(s, products);
    assert Get(s, Quantity) == Get(e, Quantity);
    assert Get(s, ProductId) == Get(e, ProductId);
    forall f ensures Get(p, f) == Get(s, f) {
      if f == ProductName || f == UnitPrice {
        if exists i :: FirstMatch(products, e.productId, i) {
          var i :| FirstMatch(products, e.productId, i);
          assert FirstMatch(products, s.productId, i);
        } else {
          assert Absent(products, e.productId);
        }
      }
    }
    FieldsDetermineForm(p, s);
    var t := TotalEffect(s);
    forall f ensures Get(t, f) == Get(s, f) {
      assert Get(s, Quantity) == Get(ProductEffect(e, products), Quantity);
    }
    FieldsDetermineForm(t, s);
  }

  /** What a submit leads to: the form passed to `onCreate` (if any), the new state, and whether the dialog closed. */
  datatype Submission = Submission(sent: Option<Entry>, modal: Modal, closed: bool)

  /**
   * `handleSubmit`. `created` says whether `onCreate` and `fetchSales`
   * both resolved.
   */
  function HandleSubmit(m: Modal, products: seq<Product>, created: bool): (r: Submission)
    ensures r.sent.None? <==>
      exists i :: FirstMatch(products, m.form.productId, i) && m.form.quantity > products[i].stockQuantity
    ensures r.sent.None? ==> r.modal == m.(errorMessage := InsufficientStockMessage) && !r.closed
    ensures r.sent.Some? ==> r.sent.value == m.form && r.modal.form == m.form
    ensures r.sent.Some? ==> (r.closed <==> created)
    ensures r.sent.Some? && created ==> r.modal.errorMessage == ""
    ensures r.sent.Some? && !created ==> r.modal.errorMessage == CreateFailedMessage
  {
    var selected := FindProduct(products, m.form.productId);
    if selected.Some? && m.form.quantity > selected.value.stockQuantity then
      Submission(None, m.(errorMessage := InsufficientStockMessage), false)
    else if created then Submission(Some(m.form), m.(errorMessage := ""), true)
    else Submission(Some(m.form), m.(errorMessage := CreateFailedMessage), false)
  }

  /** Asking for exactly the stock on hand passes the guard. */
  lemma ExactStockSubmits(m: Modal, products: seq<Product>, created: bool, i: int)
    requires FirstMatch(products, m.form.productId, i)
    requires m.form.quantity == products[i].stockQuantity
    ensures HandleSubmit(m, products, created).sent == Some(m.form)
  {
  }

  /** With no matching product loaded the guard is skipped and the form is sent. */
  lemma UnknownProductSubmits(m: Modal, products: seq<Product>, created: bool)
    requires Absent(products, m.form.productId)
    ensures HandleSubmit(m, products, created).sent == Some(m.form)
  {
  }

  /**
   * When the loaded list shows the store's stock, the dialog blocks a sale
   * exactly when the server would answer 400 for the same product and quantity.
   */
  lemma GuardAgreesWithServer(m: Modal, products: seq<Product>, created: bool, i: int, st: Store, req: Sale)
    requires FirstMatch(products, m.form.productId, i)
    requires m.form.productId in st.products
    requires st.products[m.form.productId].stockQuantity == products[i].stockQuantity
    requires req.productId == m.form.productId && req.quantity == m.form.quantity
    ensures HandleSubmit(m, products, created).sent.None? <==>
            SalesController.CreateSales(st, req, NoFault).reply.InsufficientStock?
  {
  }
}
