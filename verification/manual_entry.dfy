/** The manual-entry page: a list of line items typed in by hand, added
    through a guarded form, edited and deleted in place, and handed on to
    the assignment page.  The page also defines a list of preset items and
    an action that appends one of them; it never renders the list nor
    calls the action, and both are modelled as written. */
module ManualEntry {
  import opened Wrappers
  import opened Seqs
  import opened Text
  import opened LineItems

  /** The page's state: the list, the two text boxes of the "add" form,
      and the tip and tax boxes. */
  datatype Page = Page(items: seq<ReceiptItem>, newName: string, newPrice: string, tip: real, tax: real)

  /** A page after an action, with the `alert` the action raised, if any. */
  datatype Step = Step(page: Page, alert: Option<string>)

  /** What "Continue" does: refuse with an alert, or store the list, tip
      and tax for the assignment page and navigate there. */
  datatype Continue = Refused(alert: string) | Proceed(items: seq<ReceiptItem>, tip: real, tax: real)

  const MissingFieldAlert: string := "Please enter both item name and price"
  const InvalidPriceAlert: string := "Please enter a valid price"
  const EmptyListAlert: string := "Please add at least one item"

  /** The preset items the page defines (and never displays): name and
      price of each. */
  const Presets: seq<RawItem> := [
    RawItem("Coffee", 4.5), RawItem("Sandwich", 12.99), RawItem("Salad", 14.5),
    RawItem("Burger", 16.99), RawItem("Pizza (slice)", 3.5), RawItem("Soda", 2.99),
    RawItem("Beer", 6.5), RawItem("Appetizer", 8.99)
  ]

  /** `addItem`.  `parsed` is `parseFloat(newPrice)` (`None` for `NaN`)
      and `id` the fresh id the page derives from the clock.  A blank name
      or blank price text, an unparseable price or a negative price raise
      an alert and leave the page as it was; otherwise exactly one item is
      appended, with the trimmed name and the parsed price, and both boxes
      are cleared. */
  function AddItem(page: Page, id: string, parsed: Option<real>): (r: Step)
    ensures IsBlank(page.newName) || IsBlank(page.newPrice) ==>
              r == Step(page, Some(MissingFieldAlert))
    ensures !IsBlank(page.newName) && !IsBlank(page.newPrice) && (parsed == None || parsed.value < 0.0) ==>
              r == Step(page, Some(InvalidPriceAlert))
    ensures r.alert == None <==>
              !IsBlank(page.newName) && !IsBlank(page.newPrice) && parsed.Some? && parsed.value >= 0.0
    ensures r.alert == None ==>
              && |r.page.items| == |page.items| + 1
              && r.page.items[..|page.items|] == page.items
              && r.page.items[|page.items|] == ReceiptItem(id, Trim(page.newName), parsed.value)
              && r.page.newName == "" && r.page.newPrice == ""
              && r.page.tip == page.tip && r.page.tax == page.tax
  {
    TrimEmptyIffBlank(page.newName);
    TrimEmptyIffBlank(page.newPrice);
    if Trim(page.newName) != [] && Trim(page.newPrice) != [] then
      if parsed == None || parsed.value < 0.0 then
        Step(page, Some(InvalidPriceAlert))
      else
        var item := ReceiptItem(id, Trim(page.newName), parsed.value);
        Step(page.(items := page.items + [item], newName := "", newPrice := ""), None)
    else
      Step(page, Some(MissingFieldAlert))
  }

  /** `addPresetItem`: appends one item carrying the preset's name and
      price unchanged; the form boxes are untouched. */
  function AddPresetItem(page: Page, id: string, preset: RawItem): (r: Page)
    ensures |r.items| == |page.items| + 1
    ensures r.items[..|page.items|] == page.items
    ensures r.items[|page.items|].name == preset.name && r.items[|page.items|].price == preset.price
    ensures r.items[|page.items|].id == id
    ensures r.newName == page.newName && r.newPrice == page.newPrice
    ensures r.tip == page.tip && r.tax == page.tax
  {
    page.(items := page.items + [ReceiptItem(id, preset.name, preset.price)])
  }

  /** `handleContinue`: an empty list is refused; otherwise the list, tip
      and tax are handed on unchanged. */
  function HandleContinue(page: Page): (r: Continue)
    ensures r.Refused? <==> page.items == []
    ensures r.Refused? ==> r.alert == EmptyListAlert
    ensures r.Proceed? ==> r.items == page.items && r.tip == page.tip && r.tax == page.tax
  {
    if |page.items| == 0 then Refused(EmptyListAlert) else Proceed(page.items, page.tip, page.tax)
  }

  /** The subtotal under the list grows by exactly the price of the item
      the form adds; a refused form leaves it as it was. */
  lemma AddItemSubtotal(page: Page, id: string, parsed: Option<real>)
    ensures var r := AddItem(page, id, parsed);
            if r.alert == None then Subtotal(r.page.items) == Subtotal(page.items) + parsed.value
            else Subtotal(r.page.items) == Subtotal(page.items)
  {
  }

  lemma AddPresetItemSubtotal(page: Page, id: string, preset: RawItem)
    ensures Subtotal(AddPresetItem(page, id, preset).items) == Subtotal(page.items) + preset.price
  {
  }

  /** Every item the form adds has a non-negative price, and so has every
      defined preset; with `DeleteKeepsPricesNonNegative`, a list built only
      by these two actions and deletions never holds a negative price. */
  lemma AddKeepsPricesNonNegative(page: Page, id: string, parsed: Option<real>)
    requires AllNonNegative(Price, page.items)
    ensures AllNonNegative(Price, AddItem(page, id, parsed).page.items)
  {
  }

  lemma PresetKeepsPricesNonNegative(page: Page, id: string, k: nat)
    requires AllNonNegative(Price, page.items)
    requires k < |Presets|
    ensures AllNonNegative(Price, AddPresetItem(page, id, Presets[k]).items)
  {
  }

  /** Deleting items keeps every remaining price non-negative. */
  lemma DeleteKeepsPricesNonNegative(page: Page, id: string)
    requires AllNonNegative(Price, page.items)
    ensures AllNonNegative(Price, RemoveItem(page.items, id))
  {
  }

  /** The in-place price box is not guarded like the form: typing `-5`
      parses to a truthy number, which is stored as it is. */
  lemma PriceEditAcceptsNegative()
    ensures var items := [ReceiptItem("item-1", "Coffee", 4.5)];
            !AllNonNegative(Price, UpdateItem(items, "item-1", SetPrice(NumberOrZero(Some(-5.0)))))
  {
  }
}
