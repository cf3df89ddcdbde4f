/** The edit-receipt page: the items extracted from a scanned receipt,
    given ids on load, edited and deleted in place, extended with blank
    items, and handed on to the assignment page. */
module EditReceipt {
  import opened Seqs
  import opened Text
  import opened LineItems

  /** The id the page gives the item at position `k` of the loaded list:
      the prefix "item-" followed by digits that read back as `k`. */
  function PositionId(k: nat): (r: string)
    ensures |r| > 5 && r[..5] == "item-"
    ensures forall i :: 5 <= i < |r| ==> '0' <= r[i] <= '9'
    ensures DigitsValue(r[5..]) == k
    ensures r[5] == '0' ==> |r| == 6
  {
    var r := "item-" + Decimal(k);
    assert r[5..] == Decimal(k);
    DecimalRoundTrip(k);
    r
  }

  /** Different positions get different ids. */
  lemma PositionIdInjective(j: nat, k: nat)
    ensures PositionId(j) == PositionId(k) <==> j == k
  {
    if PositionId(j) == PositionId(k) {
      assert PositionId(j)[5..] == Decimal(j);
      assert PositionId(k)[5..] == Decimal(k);
      DecimalInjective(j, k);
    }
  }

  /** Loading `extractedItems`: the item at position `from + k` of the
      stored list keeps its name and price and gets the id `item-(from+k)`.
      The page loads with `from == 0`. */
  function LoadFrom(raw: seq<RawItem>, from: nat): (r: seq<ReceiptItem>)
    ensures |r| == |raw|
    ensures forall k :: 0 <= k < |raw| ==>
              r[k].name == raw[k].name && r[k].price == raw[k].price && r[k].id == PositionId(from + k)
    decreases |raw|
  {
    if raw == [] then []
    else [ReceiptItem(PositionId(from), raw[0].name, raw[0].price)] + LoadFrom(raw[1..], from + 1)
  }

  /** Loading the extracted items: each keeps its name and price and gets
      the id of its position, so no two loaded items share an id. */
  function Load(raw: seq<RawItem>): (r: seq<ReceiptItem>)
    ensures |r| == |raw|
    ensures forall k :: 0 <= k < |raw| ==>
              r[k].name == raw[k].name && r[k].price == raw[k].price && r[k].id == PositionId(k)
    ensures DistinctIds(r)
  {
    var r := LoadFrom(raw, 0);
    forall j, k | 0 <= j < k < |r|
      ensures r[j].id != r[k].id
    {
      PositionIdInjective(j, k);
    }
    r
  }

  /** `addNewItem`: one blank item (empty name, price zero) is appended. */
  function AddNewItem(items: seq<ReceiptItem>, id: string): (r: seq<ReceiptItem>)
    ensures |r| == |items| + 1 && r[..|items|] == items
    ensures r[|items|] == ReceiptItem(id, "", 0.0)
  {
    items + [ReceiptItem(id, "", 0.0)]
  }

  /** A blank item costs nothing: the subtotal, and so the total, is what
      it was before. */
  lemma AddNewItemKeepsTotal(items: seq<ReceiptItem>, id: string, tip: real, tax: real)
    ensures Subtotal(AddNewItem(items, id)) == Subtotal(items)
    ensures Total(AddNewItem(items, id), tip, tax) == Total(items, tip, tax)
  {
  }

  /** A blank item with an id not already on the page keeps the ids
      distinct. */
  lemma AddNewItemKeepsDistinctIds(items: seq<ReceiptItem>, id: string)
    requires DistinctIds(items)
    requires forall k :: 0 <= k < |items| ==> items[k].id != id
    ensures DistinctIds(AddNewItem(items, id))
  {
  }

  /** One field edit, or one deletion, applied to a freshly loaded list
      leaves its ids pairwise distinct. */
  lemma EditsKeepDistinctIds(raw: seq<RawItem>, id: string, e: Edit, gone: string)
    ensures DistinctIds(UpdateItem(Load(raw), id, e))
    ensures DistinctIds(RemoveItem(Load(raw), gone))
  {
    UpdateKeepsDistinctIds(Load(raw), id, e);
    RemoveKeepsDistinctIds(Load(raw), gone);
  }

  /** With distinct ids, `updateItem` rewrites at most one row. */
  lemma UpdateTouchesOneRow(items: seq<ReceiptItem>, id: string, e: Edit)
    requires DistinctIds(items)
    ensures forall j, k :: 0 <= j < k < |items| ==>
              UpdateItem(items, id, e)[j] == items[j] || UpdateItem(items, id, e)[k] == items[k]
  {
  }
}
