/** Receipt line items as the manual-entry and edit-receipt pages hold
    them (`{ id, name, price }`), and the edits both pages apply to the
    list in the same way: update one field by id, delete by id, and the
    subtotal/total shown under the list. */
module LineItems {
  import opened Wrappers
  import opened Seqs

  /** An item as extracted from a receipt, before it is given an id. */
  datatype RawItem = RawItem(name: string, price: real)

  /** A line item on an editing page. */
  datatype ReceiptItem = ReceiptItem(id: string, name: string, price: real)

  /** The field an input box writes: `updateItem(id, "name", text)` or
      `updateItem(id, "price", number)`. */
  datatype Edit = SetName(name: string) | SetPrice(price: real)

  /** The number a price, tip or tax box stores: the parsed number, with
      an unparseable text (`NaN`, here `None`) falling back to zero; a
      negative number is kept.  `parsed` is the result of `parseFloat` on
      the box's text. */
  function NumberOrZero(parsed: Option<real>): (r: real)
    ensures parsed == None ==> r == 0.0
    ensures parsed.Some? ==> r == parsed.value
  {
    parsed.GetOr(0.0)
  }

  function Apply(item: ReceiptItem, e: Edit): ReceiptItem
  {
    match e
    case SetName(n) => item.(name := n)
    case SetPrice(p) => item.(price := p)
  }

  /** No two items share an id (keys of the rendered list). */
  predicate DistinctIds(items: seq<ReceiptItem>)
  {
    forall j, k :: 0 <= j < k < |items| ==> items[j].id != items[k].id
  }

  /** `updateItem`: every item whose id matches gets the one field
      written, and nothing else changes. */
  function UpdateItem(items: seq<ReceiptItem>, id: string, e: Edit): (r: seq<ReceiptItem>)
    ensures |r| == |items|
    ensures forall k :: 0 <= k < |items| ==> r[k].id == items[k].id
    ensures forall k :: 0 <= k < |items| && items[k].id != id ==> r[k] == items[k]
    ensures forall k :: 0 <= k < |items| && items[k].id == id ==>
      match e
      case SetName(n) => r[k].name == n && r[k].price == items[k].price
      case SetPrice(p) => r[k].price == p && r[k].name == items[k].name
  {
    if items == [] then []
    else
      var head := if items[0].id == id then Apply(items[0], e) else items[0];
      [head] + UpdateItem(items[1..], id, e)
  }

  function KeepsOtherIds(id: string): ReceiptItem -> bool
  {
    (item: ReceiptItem) => item.id != id
  }

  function HasId(id: string): ReceiptItem -> bool
  {
    (item: ReceiptItem) => item.id == id
  }

  /** `removeItem`: no item with `id` remains, every other item is kept,
      and the survivors keep their order. */
  function RemoveItem(items: seq<ReceiptItem>, id: string): (r: seq<ReceiptItem>)
    ensures forall k :: 0 <= k < |r| ==> r[k].id != id && r[k] in items
    ensures forall k :: 0 <= k < |items| && items[k].id != id ==> items[k] in r
    ensures IsSubsequence(r, items)
  {
    Filter(KeepsOtherIds(id), items)
  }

  /** The list `RemoveItem` returns is the only order-preserving selection
      from `items` that drops every item with `id` and keeps all others. */
  lemma RemoveItemExactly(items: seq<ReceiptItem>, id: string, r: seq<ReceiptItem>)
    requires IsSubsequence(r, items)
    requires forall k :: 0 <= k < |r| ==> r[k].id != id
    requires |r| == Count(KeepsOtherIds(id), items)
    ensures r == RemoveItem(items, id)
  {
    FilterUnique(KeepsOtherIds(id), r, items);
  }

  function Price(item: ReceiptItem): real
  {
    item.price
  }

  /** The subtotal shown under the list: the sum of the prices, zero for
      an empty list, and never negative while no price is. */
  function Subtotal(items: seq<ReceiptItem>): (r: real)
    ensures items == [] ==> r == 0.0
    ensures AllNonNegative(Price, items) ==> r >= 0.0
  {
    SumOfNonNegative(Price, items);
    SumOf(Price, items)
  }

  /** The total shown under the subtotal: tip and tax on top of it, so it
      is at least the subtotal while neither is negative. */
  function Total(items: seq<ReceiptItem>, tip: real, tax: real): (r: real)
    ensures tip >= 0.0 && tax >= 0.0 ==> r >= Subtotal(items)
    ensures AllNonNegative(Price, items) && tip >= 0.0 && tax >= 0.0 ==> r >= 0.0
  {
    Subtotal(items) + tip + tax
  }

  /** Deleting by id lowers the subtotal by exactly the prices of the
      deleted items. */
  lemma RemoveItemSubtotal(items: seq<ReceiptItem>, id: string)
    ensures Subtotal(RemoveItem(items, id)) + Subtotal(Filter(HasId(id), items)) == Subtotal(items)
  {
    SumOfPartition(KeepsOtherIds(id), HasId(id), Price, items);
  }

  /** Renaming items leaves the subtotal unchanged. */
  lemma {:induction false} RenameKeepsSubtotal(items: seq<ReceiptItem>, id: string, n: string)
    ensures Subtotal(UpdateItem(items, id, SetName(n))) == Subtotal(items)
    decreases |items|
  {
    if items != [] {
      var r := UpdateItem(items, id, SetName(n));
      RenameKeepsSubtotal(items[..|items| - 1], id, n);
      assert r[..|r| - 1] == UpdateItem(items[..|items| - 1], id, SetName(n)) by {
        UpdateItemPrefix(items, id, SetName(n));
      }
    }
  }

  lemma {:induction false} UpdateItemPrefix(items: seq<ReceiptItem>, id: string, e: Edit)
    requires items != []
    ensures UpdateItem(items, id, e)[..|items| - 1] == UpdateItem(items[..|items| - 1], id, e)
  {
  }

  /** Field edits never change ids, so distinct ids stay distinct. */
  lemma UpdateKeepsDistinctIds(items: seq<ReceiptItem>, id: string, e: Edit)
    requires DistinctIds(items)
    ensures DistinctIds(UpdateItem(items, id, e))
  {
  }

  /** Deleting items keeps the remaining ids distinct. */
  lemma {:induction false} RemoveKeepsDistinctIds(items: seq<ReceiptItem>, id: string)
    requires DistinctIds(items)
    ensures DistinctIds(RemoveItem(items, id))
    decreases |items|
  {
    if items != [] {
      RemoveKeepsDistinctIds(items[1..], id);
      var rest := RemoveItem(items[1..], id);
      assert forall k :: 0 <= k < |rest| ==> rest[k] in items[1..];
    }
  }
}
