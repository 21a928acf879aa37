/**
 * The mobile transaction history: the fetched transfers are sorted newest first in place,
 * the shown total adds up each transfer's amount, and each row shows the transfer's fields
 * with their defaults. Dates are the milliseconds `new Date(text).getTime()` gives; a date
 * that is absent or empty is `None`.
 */
module TransactionHistory {
  import opened Wrappers
  import opened JsText
  import Ordering

  /** The bank's record kept with a transfer. */
  datatype Raw = Raw(transactionDate: Option<int>, transferAmount: Option<int>, amount: Option<int>,
                     gateway: Option<string>, referenceCode: Option<string>,
                     content: Option<string>, message: Option<string>, description: Option<string>)

  /** A transfer as `GET /transactions` returns it. */
  datatype Item = Item(id: string, raw: Option<Raw>, time: Option<int>, kind: Option<string>)

  /** `new Date(a.raw?.transactionDate || a.time || 0).getTime()`. */
  function TimeOf(t: Item): (ms: int)
    ensures t.raw.Some? && t.raw.value.transactionDate.Some? ==> ms == t.raw.value.transactionDate.value
    ensures (t.raw.None? || t.raw.value.transactionDate.None?) && t.time.Some? ==> ms == t.time.value
    ensures (t.raw.None? || t.raw.value.transactionDate.None?) && t.time.None? ==> ms == 0
  {
    if t.raw.Some? && t.raw.value.transactionDate.Some? then t.raw.value.transactionDate.value
    else if t.time.Some? then t.time.value
    else 0
  }

  /** The comparator `timeB - timeA`: ascending in the negated time is newest first. */
  function NewestFirst(t: Item): int { -TimeOf(t) }

  /** `raw?.transferAmount || raw?.amount || 0`. */
  function AmountOf(t: Item): (a: int)
    ensures t.raw.Some? && TruthyNum(t.raw.value.transferAmount) ==> a == t.raw.value.transferAmount.value
    ensures t.raw.None? ==> a == 0
    ensures a != 0 ==> t.raw.Some? && (t.raw.value.transferAmount == Some(a) || t.raw.value.amount == Some(a))
  {
    if t.raw.None? then 0
    else OrNum(t.raw.value.transferAmount, OrNum(t.raw.value.amount, 0))
  }

  const NotAvailable := "N/A"
  const NoContent := "Không có nội dung"
  const Succeeded := "Giao dịch thành công"
  const IncomingKind := "Tiền vào"

  /** A displayed row; a date of `None` is shown as `N/A`. */
  datatype Row = Row(kind: string, amount: int, gateway: string, referenceCode: string,
                     description: string, content: string, transactionDate: Option<int>)

  function OrText(a: Option<string>, d: string): (r: string)
    ensures Truthy(a) ==> r == a.value
    ensures !Truthy(a) ==> r == d
  {
    if Truthy(a) then a.value else d
  }

  /** `renderItem`: every text falls back to its default when missing or empty. */
  function RowOf(t: Item): (r: Row)
    ensures r.amount == AmountOf(t)
    ensures r.transactionDate.Some? <==> (t.raw.Some? && t.raw.value.transactionDate.Some?) || t.time.Some?
    ensures r.transactionDate.Some? ==> r.transactionDate.value == TimeOf(t)
    ensures r.kind != "" && r.gateway != "" && r.referenceCode != "" && r.description != "" && r.content != ""
  {
    var raw := if t.raw.Some? then t.raw.value else Raw(None, None, None, None, None, None, None, None);
    Row(OrText(t.kind, IncomingKind), AmountOf(t), OrText(raw.gateway, NotAvailable),
        OrText(raw.referenceCode, NotAvailable), OrText(raw.description, Succeeded),
        OrText(raw.content, OrText(raw.message, NoContent)),
        if raw.transactionDate.Some? then raw.transactionDate else t.time)
  }

  /** The answer of `GET /transactions`, or a request that fails (the catch branch).
      `data` is `None` when the field is missing. */
  datatype Response = Unreachable | Answer(success: bool, data: Option<seq<Item>>)

  datatype Alert = ListFailed | ConnectionFailed

  /** The transfers of a successful answer: `result.data || []`. */
  function DataOf(r: Response): seq<Item>
    requires r.Answer?
  {
    if r.data.Some? then r.data.value else []
  }

  /** The screen's state. */
  class History {
    var transactions: seq<Item>
    var totalAmount: int

    constructor ()
      ensures transactions == [] && totalAmount == 0
    {
      transactions := [];
      totalAmount := 0;
    }

    /** The summary: how many transfers and their total. */
    function Summary(): (r: (int, int))
      reads this
      ensures r.0 == |transactions|
    {
      (|transactions|, totalAmount)
    }

    /** `fetchTransactions()`. A successful answer replaces the list by its transfers newest
        first and the total by the sum of their amounts, whichever order they are added in;
        a refused answer or a failed request shows an alert and changes nothing. */
    method FetchTransactions(response: Response) returns (alert: Option<Alert>)
      modifies this
      ensures response.Unreachable? ==> alert == Some(ConnectionFailed)
      ensures response.Answer? && !response.success ==> alert == Some(ListFailed)
      ensures alert.Some? ==> transactions == old(transactions) && totalAmount == old(totalAmount)
      ensures alert.None? <==> response.Answer? && response.success
      ensures alert.None? ==>
        (forall i, j :: 0 <= i < j < |transactions| ==> TimeOf(transactions[i]) >= TimeOf(transactions[j])) &&
        multiset(transactions) == multiset(DataOf(response)) &&
        totalAmount == Ordering.SumBy(DataOf(response), AmountOf)
    {
      if response.Unreachable? {
        return Some(ConnectionFailed);
      }
      if !response.success {
        return Some(ListFailed);
      }
      var data := DataOf(response);
      // The sort reorders the response's own array, which the total then reads.
      data := Ordering.SortByKey(data, NewestFirst);
      assert forall i, j :: 0 <= i < j < |data| ==> NewestFirst(data[i]) <= NewestFirst(data[j]);
      transactions := data;
      totalAmount := Ordering.SumBy(data, AmountOf);
      Ordering.SumByPermutation(data, DataOf(response), AmountOf);
      alert := None;
    }
  }

  /** The shown total is the sum of the amounts shown on the rows. */
  lemma {:induction false} TotalMatchesRows(ts: seq<Item>)
    ensures Ordering.SumBy(ts, AmountOf) == Ordering.SumBy(ts, (t: Item) => RowOf(t).amount)
  {
    Ordering.SumByAgree(ts, AmountOf, (t: Item) => RowOf(t).amount);
  }
}
