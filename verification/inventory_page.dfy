/**
 * The inventory page's list of edited rows, `editRows`: a cell edit
 * rewrites the rows with the edited id, a save drops them.
 */
module InventoryPage {
  import opened Wrappers
  import opened Domain
  import Seqs

  /** The editable columns of the grid. */
  datatype Column = NameColumn | DescriptionColumn | PriceColumn | RatingColumn | StockColumn

  /** What a grid cell shows. */
  datatype Cell = TextCell(text: string) | NumberCell(number: int) | EmptyCell

  /** A committed cell edit: the column and the new value. */
  datatype Edit = Rename(name: string) | Describe(description: string) | Reprice(price: int)
                | Rate(rating: int) | Restock(stockQuantity: int)

  function ColumnOf(e: Edit): Column {
    match e
    case Rename(_) => NameColumn
    case Describe(_) => DescriptionColumn
    case Reprice(_) => PriceColumn
    case Rate(_) => RatingColumn
    case Restock(_) => StockColumn
  }

  function CellOf(e: Edit): Cell {
    match e
    case Rename(s) => TextCell(s)
    case Describe(s) => TextCell(s)
    case Reprice(n) => NumberCell(n)
    case Rate(n) => NumberCell(n)
    case Restock(n) => NumberCell(n)
  }

  /** `row[field]` for an editable column. */
  function Read(p: Product, c: Column): Cell {
    match c
    case NameColumn => TextCell(p.name)
    case DescriptionColumn => if p.description.Some? then TextCell(p.description.value) else EmptyCell
    case PriceColumn => NumberCell(p.price)
    case RatingColumn => if p.rating.Some? then NumberCell(p.rating.value) else EmptyCell
    case StockColumn => NumberCell(p.stockQuantity)
  }

  /** Rows that agree on id, `dateid` and every editable column are the same row. */
  lemma ColumnsDetermineRow(a: Product, b: Product)
    requires a.productId == b.productId && a.dateid == b.dateid
    requires forall c :: Read(a, c) == Read(b, c)
    ensures a == b
  {
    assert Read(a, NameColumn) == Read(b, NameColumn);
    assert Read(a, DescriptionColumn) == Read(b, DescriptionColumn);
    assert Read(a, PriceColumn) == Read(b, PriceColumn);
    assert Read(a, RatingColumn) == Read(b, RatingColumn);
    assert Read(a, StockColumn) == Read(b, StockColumn);
  }

  /** `{ ...row, [field]: value }` */
  function ApplyEdit(row: Product, e: Edit): (r: Product)
    ensures Read(r, ColumnOf(e)) == CellOf(e)
    ensures forall c :: c != ColumnOf(e) ==> Read(r, c) == Read(row, c)
    ensures r.productId == row.productId && r.dateid == row.dateid
  {
    match e
    case Rename(s) => row.(name := s)
    case Describe(s) => row.(description := Some(s))
    case Reprice(n) => row.(price := n)
    case Rate(n) => row.(rating := Some(n))
    case Restock(n) => row.(stockQuantity := n)
  }

  /** `handleEditCellChange`: apply the edit to every row with the edited id. */
  function EditCell(rows: seq<Product>, id: ProductId, e: Edit): (r: seq<Product>)
    ensures |r| == |rows|
    ensures forall i :: 0 <= i < |rows| && rows[i].productId != id ==> r[i] == rows[i]
    ensures forall i :: 0 <= i < |rows| && rows[i].productId == id ==> r[i] == ApplyEdit(rows[i], e)
    ensures forall i :: 0 <= i < |rows| ==> r[i].productId == rows[i].productId
  {
    seq(|rows|, i requires 0 <= i < |rows| => if rows[i].productId == id then ApplyEdit(rows[i], e) else rows[i])
  }

  /**
   * `handleSave`, after the update request: drop every row with the saved
   * id. The mutation is awaited without `unwrap()`, so a failed update does
   * not reject and the rows are dropped all the same.
   */
  function Save(rows: seq<Product>, product: Product): (r: seq<Product>)
    ensures forall i :: 0 <= i < |r| ==> r[i].productId != product.productId
    ensures forall i :: 0 <= i < |rows| && rows[i].productId != product.productId ==> rows[i] in r
    ensures forall p :: p in r ==> p in rows
  {
    Seqs.Filter(rows, (p: Product) => p.productId != product.productId)
  }

  /** Saving keeps the remaining rows in order. */
  lemma SaveKeepsOrder(rows: seq<Product>, product: Product)
    ensures Seqs.IsSubsequence(Save(rows, product), rows)
  {
    Seqs.FilterIsSubsequence(rows, (p: Product) => p.productId != product.productId);
  }

  /** The two handlers that touch `editRows`. */
  datatype PageEvent = CellEdited(id: ProductId, edit: Edit) | Saved(product: Product)

  function Handle(rows: seq<Product>, ev: PageEvent): seq<Product> {
    match ev
    case CellEdited(id, e) => EditCell(rows, id, e)
    case Saved(p) => Save(rows, p)
  }

  function Replay(rows: seq<Product>, events: seq<PageEvent>): seq<Product>
    decreases |events|
  {
    if |events| == 0 then rows else Replay(Handle(rows, events[0]), events[1..])
  }

  /**
   * `editRows` starts empty and neither handler ever adds a row, so it stays
   * empty whatever the user does: every cell edit is a no-op on it.
   */
  lemma {:induction false} EditRowsStayEmpty(events: seq<PageEvent>)
    ensures Replay([], events) == []
    decreases |events|
  {
    if |events| > 0 {
      assert Handle([], events[0]) == [];
      EditRowsStayEmpty(events[1..]);
    }
  }
}
