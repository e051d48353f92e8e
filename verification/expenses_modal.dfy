/**
 * The create-expense dialog: its change handler, the effect that fills in
 * the product name, and a submit with no stock guard. Unit price and total
 * are typed in by the user.
 */
module ExpensesModal {
  import opened Wrappers
  import opened Domain
  import opened Form
  import opened Catalog

  const CreateFailedMessage := "Failed to create expense. Please try again."

  /** The dialog's first state; `expenseId` and `now` stand for `v4()` and the current ISO time. */
  function Initial(expenseId: string, now: string): (m: Modal)
    ensures m.form.id == expenseId && m.form.createdAt == now
    ensures m.form.quantity == 0 && m.form.unitPrice == 0 && m.form.totalAmount == 0
    ensures m.errorMessage == ""
  {
    Modal(Entry(expenseId, "", "", 0, 0, 0, "", "", now), "")
  }

  /**
   * `handleChange` for a control named `f` whose text is `raw`: quantity,
   * unit price and total are parsed as numbers, everything else is text.
   */
  function HandleChange(m: Modal, f: Field, raw: string, parse: string -> int): (r: Modal)
    ensures Get(r.form, f) == (if f == Quantity || f == UnitPrice || f == TotalAmount then Number(parse(raw)) else Text(raw))
    ensures forall g :: g != f ==> Get(r.form, g) == Get(m.form, g)
    ensures f == ProductId || f == Quantity ==> r.errorMessage == ""
    ensures f != ProductId && f != Quantity ==> r.errorMessage == m.errorMessage
  {
    var form := Assign(m.form, f, raw, parse);
    if f == ProductId || f == Quantity then Modal(form, "") else Modal(form, m.errorMessage)
  }

  /** The effect on `[productId, products]`: copy only the selected product's name. */
  function ProductEffect(e: Entry, products: seq<Product>): (r: Entry)
    ensures forall i :: FirstMatch(products, e.productId, i) ==> r.productName == products[i].name
    ensures Absent(products, e.productId) ==> r.productName == ""
    ensures forall g :: g != ProductName ==> Get(r, g) == Get(e, g)
  {
    match FindProduct(products, e.productId)
    case Some(p) => SetText(e, ProductName, p.name)
    case None => SetText(e, ProductName, "")
  }

  /** Running the effect again after it has run changes nothing. */
  lemma {:induction false} ProductEffectIdempotent(e: Entry, products: seq<Product>)
    ensures ProductEffect(ProductEffect(e, products), products) == ProductEffect(e, products)
  {
    var s := ProductEffect(e, products);
    var p := ProductEffect(s, products);
    assert Get(s, ProductId) == Get(e, ProductId);
    forall f ensures Get(p, f) == Get(s, f) {
      if f == ProductName {
        if exists i :: FirstMatch(products, e.productId, i) {
          var i :| FirstMatch(products, e.productId, i);
          assert FirstMatch(products, s.productId, i);
        } else {
          assert Absent(products, e.productId);
        }
      }
    }
    FieldsDetermineForm(p, s);
  }

  /** What a submit leads to: the form passed to `onCreate`, the new state, and whether the dialog closed. */
  datatype Submission = Submission(sent: Entry, modal: Modal, closed: bool)

  /**
   * `handleSubmit`: the form always reaches `onCreate`, whatever its
   * quantity. `created` says whether `onCreate` and `fetchExpenses` both
   * resolved.
   */
  function HandleSubmit(m: Modal, created: bool): (r: Submission)
    ensures r.sent == m.form && r.modal.form == m.form
    ensures r.closed <==> created
    ensures created ==> r.modal.errorMessage == ""
    ensures !created ==> r.modal.errorMessage == CreateFailedMessage
  {
    if created then Submission(m.form, m.(errorMessage := ""), true)
    else Submission(m.form, m.(errorMessage := CreateFailedMessage), false)
  }
}
