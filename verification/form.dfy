/**
 * The state shared by the create-sale and create-expense dialogs: the
 * nine-field form, its error message, and field-by-name access as
 * `{ ...prevData, [name]: value }` performs it.
 */
module Form {
  import opened Domain

  /** The `name` attribute of a form control. */
  datatype Field = Id | ProductId | ProductName | Quantity | UnitPrice | TotalAmount | Description | UserId | CreatedAt

  /** The value held by a field. */
  datatype Value = Text(text: string) | Number(number: int)

  /** The dialog's React state: `formData` and `errorMessage`. */
  datatype Modal = Modal(form: Entry, errorMessage: string)

  predicate IsNumeric(f: Field) {
    f == Quantity || f == UnitPrice || f == TotalAmount
  }

  /** `formData[f]` */
  function Get(e: Entry, f: Field): (v: Value)
    ensures v.Number? <==> IsNumeric(f)
  {
    match f
    case Id => Text(e.id)
    case ProductId => Text(e.productId)
    case ProductName => Text(e.productName)
    case Quantity => Number(e.quantity)
    case UnitPrice => Number(e.unitPrice)
    case TotalAmount => Number(e.totalAmount)
    case Description => Text(e.description)
    case UserId => Text(e.userid)
    case CreatedAt => Text(e.createdAt)
  }

  /** Two forms that agree on every field are the same form. */
  lemma FieldsDetermineForm(a: Entry, b: Entry)
    requires forall f :: Get(a, f) == Get(b, f)
    ensures a == b
  {
    assert Get(a, Id) == Get(b, Id);
    assert Get(a, ProductId) == Get(b, ProductId);
    assert Get(a, ProductName) == Get(b, ProductName);
    assert Get(a, Quantity) == Get(b, Quantity);
    assert Get(a, UnitPrice) == Get(b, UnitPrice);
    assert Get(a, TotalAmount) == Get(b, TotalAmount);
    assert Get(a, Description) == Get(b, Description);
    assert Get(a, UserId) == Get(b, UserId);
    assert Get(a, CreatedAt) == Get(b, CreatedAt);
  }

  /** `{ ...e, [f]: s }` for a text field. */
  function SetText(e: Entry, f: Field, s: string): (r: Entry)
    requires !IsNumeric(f)
    ensures Get(r, f) == Text(s)
    ensures forall g :: g != f ==> Get(r, g) == Get(e, g)
  {
    match f
    case Id => e.(id := s)
    case ProductId => e.(productId := s)
    case ProductName => e.(productName := s)
    case Description => e.(description := s)
    case UserId => e.(userid := s)
    case CreatedAt => e.(createdAt := s)
  }

  /** `{ ...e, [f]: n }` for a numeric field. */
  function SetNumber(e: Entry, f: Field, n: int): (r: Entry)
    requires IsNumeric(f)
    ensures Get(r, f) == Number(n)
    ensures forall g :: g != f ==> Get(r, g) == Get(e, g)
  {
    match f
    case Quantity => e.(quantity := n)
    case UnitPrice => e.(unitPrice := n)
    case TotalAmount => e.(totalAmount := n)
  }

  /**
   * The form update of a change event on control `f` whose text is `raw`:
   * numeric fields receive `parse(raw)` (the page's `parseFloat`), the
   * others the text itself.
   */
  function Assign(e: Entry, f: Field, raw: string, parse: string -> int): (r: Entry)
    ensures Get(r, f) == (if IsNumeric(f) then Number(parse(raw)) else Text(raw))
    ensures forall g :: g != f ==> Get(r, g) == Get(e, g)
  {
    if IsNumeric(f) then SetNumber(e, f, parse(raw)) else SetText(e, f, raw)
  }

  /**
   * The product `<select>`'s own change handler, used by both dialogs
   * instead of `handleChange`: it sets `productId` and nothing else, and in
   * particular leaves the error message as it was.
   */
  function SelectProduct(m: Modal, id: ProductId): (r: Modal)
    ensures Get(r.form, ProductId) == Text(id)
    ensures forall g :: g != ProductId ==> Get(r.form, g) == Get(m.form, g)
    ensures r.errorMessage == m.errorMessage
  {
    m.(form := SetText(m.form, ProductId, id))
  }
}
