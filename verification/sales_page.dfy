/** The sales page's date filter over the loaded sales rows. */
module SalesPage {
  import opened Domain
  import Text
  import Seqs

  /**
   * `filteredSales`: with no date chosen the rows are shown as loaded,
   * otherwise the rows whose `createdAt` text starts with the chosen date.
   */
  function FilterByDate(sales: seq<Entry>, filterDate: string): (r: seq<Entry>)
    ensures filterDate == "" ==> r == sales
    ensures forall i :: 0 <= i < |r| ==> Text.StartsWith(r[i].createdAt, filterDate)
    ensures forall i :: 0 <= i < |sales| && Text.StartsWith(sales[i].createdAt, filterDate) ==> sales[i] in r
    ensures forall s :: s in r ==> s in sales
  {
    if filterDate == "" then sales
    else Seqs.Filter(sales, (s: Entry) => Text.StartsWith(s.createdAt, filterDate))
  }

  /** The filter keeps the rows in their loaded order. */
  lemma FilterByDateKeepsOrder(sales: seq<Entry>, filterDate: string)
    ensures Seqs.IsSubsequence(FilterByDate(sales, filterDate), sales)
  {
    Seqs.FilterIsSubsequence(sales, (s: Entry) => Text.StartsWith(s.createdAt, filterDate));
    if filterDate == "" {
      Seqs.FilterKeepsAll(sales, (s: Entry) => Text.StartsWith(s.createdAt, filterDate));
    }
  }

  /** The empty-date shortcut gives what the prefix filter itself would give. */
  lemma EmptyDateIsPlainFilter(sales: seq<Entry>, filterDate: string)
    ensures FilterByDate(sales, filterDate) == Seqs.Filter(sales, (s: Entry) => Text.StartsWith(s.createdAt, filterDate))
  {
    if filterDate == "" {
      Seqs.FilterKeepsAll(sales, (s: Entry) => Text.StartsWith(s.createdAt, filterDate));
    }
  }
}
