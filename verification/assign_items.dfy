/** The assignment page: the roster of people splitting the bill, and for
    each loaded line item the list of people it is assigned to.  Every
    action replaces the lists with new ones, as the page's `setState`
    calls do. */
module AssignItems {
  import opened Wrappers
  import opened Seqs
  import opened Text
  import LineItems

  datatype Person = Person(id: string, name: string)

  /** A line item; `assignedTo` is `None` when the stored item carried no
      assignment list at all, which the page reads as an empty list. */
  datatype Item = Item(id: string, name: string, price: real, assignedTo: Option<seq<string>>)

  /** The page's state: items, roster, the "add person" box, tip and tax. */
  datatype Page = Page(items: seq<Item>, people: seq<Person>, newPersonName: string, tip: real, tax: real)

  /** A page after an action, with the `alert` the action raised, if any. */
  datatype Step = Step(page: Page, alert: Option<string>)

  /** What "Continue" does: refuse with an alert, stop because the user
      declined the confirmation, or store the final state for the summary
      page and navigate there. */
  datatype Continue =
    | Refused(alert: string)
    | Declined
    | Proceed(items: seq<Item>, people: seq<Person>, tip: real, tax: real)

  const NoPeopleSplitAlert: string := "Please add at least one person first"
  const NoPeopleContinueAlert: string := "Please add at least one person"
  const UnknownName: string := "Unknown"

  /** The ids an item is assigned to; a missing list reads as empty. */
  function Assignees(item: Item): seq<string>
  {
    item.assignedTo.GetOr([])
  }

  function PersonIds(people: seq<Person>): seq<string>
  {
    seq(|people|, k requires 0 <= k < |people| => people[k].id)
  }

  /** Some person on the roster has the id `x`. */
  predicate OnRoster(people: seq<Person>, x: string)
  {
    exists j :: 0 <= j < |people| && people[j].id == x
  }

  /** No dangling references: every id in an assignment list names a
      person on the roster. */
  predicate NoDangling(items: seq<Item>, people: seq<Person>)
  {
    forall k, x :: 0 <= k < |items| && x in Assignees(items[k]) ==> OnRoster(people, x)
  }

  /** Position of the first person with the id `x`. */
  function IndexOfId(people: seq<Person>, x: string): (j: nat)
    requires OnRoster(people, x)
    ensures j < |people| && people[j].id == x
    ensures forall m :: 0 <= m < j ==> people[m].id != x
  {
    if people[0].id == x then 0
    else
      assert OnRoster(people[1..], x) by {
        var j :| 0 <= j < |people| && people[j].id == x;
        assert people[1..][j - 1].id == x;
      }
      1 + IndexOfId(people[1..], x)
  }

  /** Both lists describe the same line items: same length, and position
      by position the same id, name and price. */
  predicate SameLines(a: seq<Item>, b: seq<Item>)
  {
    && |a| == |b|
    && forall k :: 0 <= k < |a| ==> a[k].id == b[k].id && a[k].name == b[k].name && a[k].price == b[k].price
  }

  /** Loading the stored list: every stored item, in order, with an empty
      assignment list. */
  function Load(stored: seq<LineItems.ReceiptItem>): (r: seq<Item>)
    ensures |r| == |stored|
    ensures forall k :: 0 <= k < |stored| ==>
              && r[k].id == stored[k].id && r[k].name == stored[k].name && r[k].price == stored[k].price
              && r[k].assignedTo == Some([])
  {
    if stored == [] then []
    else [Item(stored[0].id, stored[0].name, stored[0].price, Some([]))] + Load(stored[1..])
  }

  /** The page on load.  `stored` is the parsed `receiptItems` (`None` when
      the key is absent or does not parse); `tip` and `tax` are
      `parseFloat` of the stored texts (`None` when absent or `NaN`). */
  function LoadPage(stored: Option<seq<LineItems.ReceiptItem>>, tip: Option<real>, tax: Option<real>): (r: Page)
    ensures stored.Some? ==> r.items == Load(stored.value)
    ensures stored == None ==> r.items == []
    ensures r.people == [] && r.newPersonName == ""
    ensures r.tip == LineItems.NumberOrZero(tip) && r.tax == LineItems.NumberOrZero(tax)
    ensures NoDangling(r.items, r.people)
  {
    var items := if stored.Some? then Load(stored.value) else [];
    Page(items, [], "", LineItems.NumberOrZero(tip), LineItems.NumberOrZero(tax))
  }

  /** `addPerson`.  A blank name leaves the page unchanged; otherwise one
      person with the trimmed name is appended and the box is cleared. */
  function AddPerson(page: Page, id: string): (r: Page)
    ensures IsBlank(page.newPersonName) ==> r == page
    ensures !IsBlank(page.newPersonName) ==>
              && r.people == page.people + [Person(id, Trim(page.newPersonName))]
              && Trim(page.newPersonName) != []
              && r.newPersonName == ""
              && r.items == page.items && r.tip == page.tip && r.tax == page.tax
  {
    TrimEmptyIffBlank(page.newPersonName);
    var name := Trim(page.newPersonName);
    if name != [] then page.(people := page.people + [Person(id, name)], newPersonName := "")
    else page
  }

  function KeepsOtherPeople(personId: string): Person -> bool
  {
    (p: Person) => p.id != personId
  }

  /** The assignment half of `removePerson`: every item keeps its line and
      loses the person from its list; a missing list becomes empty. */
  function Unassign(items: seq<Item>, personId: string): (r: seq<Item>)
    ensures SameLines(r, items)
    ensures forall k :: 0 <= k < |items| ==>
              && r[k].assignedTo.Some?
              && personId !in Assignees(r[k])
              && Assignees(r[k]) == Remove(Assignees(items[k]), personId)
              && multiset(Assignees(r[k])) == multiset(Assignees(items[k]))[personId := 0]
  {
    if items == [] then []
    else
      RemoveMultiset(Assignees(items[0]), personId);
      [items[0].(assignedTo := Some(Remove(Assignees(items[0]), personId)))] + Unassign(items[1..], personId)
  }

  /** `removePerson`: the person leaves the roster and every assignment
      list, in one step. */
  function RemovePerson(page: Page, personId: string): (r: Page)
    ensures forall k :: 0 <= k < |r.people| ==> r.people[k].id != personId
    ensures forall k :: 0 <= k < |r.items| ==> personId !in Assignees(r.items[k])
    ensures IsSubsequence(r.people, page.people)
    ensures |r.people| == Count(KeepsOtherPeople(personId), page.people)
    ensures forall k :: 0 <= k < |page.people| && page.people[k].id != personId ==> page.people[k] in r.people
    ensures SameLines(r.items, page.items)
    ensures forall k :: 0 <= k < |page.items| ==> IsSubsequence(Assignees(r.items[k]), Assignees(page.items[k]))
    ensures forall k, x :: 0 <= k < |page.items| && x != personId && x in Assignees(page.items[k]) ==>
              x in Assignees(r.items[k])
    ensures forall k :: 0 <= k < |page.items| ==>
              multiset(Assignees(r.items[k])) == multiset(Assignees(page.items[k]))[personId := 0]
    ensures r.newPersonName == page.newPersonName && r.tip == page.tip && r.tax == page.tax
  {
    page.(people := Filter(KeepsOtherPeople(personId), page.people), items := Unassign(page.items, personId))
  }

  /** The assignment list after one checkbox click for `personId`: when
      present, every occurrence is dropped and the other ids keep their
      order and multiplicity; when absent, the person is appended at the
      end. */
  function ToggleIds(ids: seq<string>, personId: string): (r: seq<string>)
    ensures personId in r <==> personId !in ids
    ensures forall x :: x != personId ==> (x in r <==> x in ids)
    ensures personId !in ids ==> |r| == |ids| + 1 && r[..|ids|] == ids
    ensures personId in ids ==> IsSubsequence(r, ids) && multiset(r) == multiset(ids)[personId := 0]
  {
    if personId in ids then
      RemoveMultiset(ids, personId);
      Remove(ids, personId)
    else ids + [personId]
  }

  /** `toggleItemAssignment(itemId, personId)`: only items whose id is
      `itemId` change, and only in their assignment list. */
  function Toggle(items: seq<Item>, itemId: string, personId: string): (r: seq<Item>)
    ensures SameLines(r, items)
    ensures forall k :: 0 <= k < |items| && items[k].id != itemId ==> r[k] == items[k]
    ensures forall k :: 0 <= k < |items| && items[k].id == itemId ==>
              r[k].assignedTo == Some(ToggleIds(Assignees(items[k]), personId))
  {
    if items == [] then []
    else
      var head := if items[0].id == itemId
        then items[0].(assignedTo := Some(ToggleIds(Assignees(items[0]), personId)))
        else items[0];
      [head] + Toggle(items[1..], itemId, personId)
  }

  /** Every item gets `ids` as its assignment list. */
  function AssignAll(items: seq<Item>, ids: seq<string>): (r: seq<Item>)
    ensures SameLines(r, items)
    ensures forall k :: 0 <= k < |items| ==> r[k].assignedTo == Some(ids)
  {
    if items == [] then [] else [items[0].(assignedTo := Some(ids))] + AssignAll(items[1..], ids)
  }

  /** `splitEvenly`: with an empty roster an alert and no change;
      otherwise every item's list becomes the roster's ids in roster order,
      discarding what was there. */
  function SplitEvenly(page: Page): (r: Step)
    ensures page.people == [] ==> r == Step(page, Some(NoPeopleSplitAlert))
    ensures page.people != [] ==>
              && r.alert == None
              && SameLines(r.page.items, page.items)
              && (forall k :: 0 <= k < |page.items| ==> r.page.items[k].assignedTo == Some(PersonIds(page.people)))
              && r.page.people == page.people
              && r.page.newPersonName == page.newPersonName && r.page.tip == page.tip && r.page.tax == page.tax
  {
    if |page.people| == 0 then Step(page, Some(NoPeopleSplitAlert))
    else Step(page.(items := AssignAll(page.items, PersonIds(page.people))), None)
  }

  /** `getPersonName`: the name of the first person with the id, or
      "Unknown" when no one on the roster has it. */
  function GetPersonName(people: seq<Person>, id: string): (r: string)
    ensures (forall k :: 0 <= k < |people| ==> people[k].id != id) ==> r == UnknownName
    ensures forall k :: 0 <= k < |people| && people[k].id == id && (forall j :: 0 <= j < k ==> people[j].id != id) ==>
              r == people[k].name
  {
    if people == [] then UnknownName
    else if people[0].id == id then people[0].name
    else GetPersonName(people[1..], id)
  }

  /** An item counts as unassigned when it has no list or an empty one,
      that is, when no name would be shown under it. */
  function IsUnassigned(item: Item): (b: bool)
    ensures b <==> Assignees(item) == []
  {
    item.assignedTo == None || item.assignedTo.value == []
  }

  /** Some item is assigned to no one. */
  function HasUnassigned(items: seq<Item>): (b: bool)
    ensures b <==> exists k :: 0 <= k < |items| && IsUnassigned(items[k])
  {
    if items == [] then false
    else IsUnassigned(items[0]) || HasUnassigned(items[1..])
  }

  /** `handleContinue`.  `confirmed` is the answer the user gives to the
      "Some items are not assigned to anyone" dialog, which is only shown
      when some item is unassigned. */
  function HandleContinue(page: Page, confirmed: bool): (r: Continue)
    ensures r.Refused? <==> page.people == []
    ensures r.Refused? ==> r.alert == NoPeopleContinueAlert
    ensures r.Declined? <==> page.people != [] && HasUnassigned(page.items) && !confirmed
    ensures r.Proceed? ==> r == Proceed(page.items, page.people, page.tip, page.tax)
    ensures page.people != [] && (forall k :: 0 <= k < |page.items| ==> !IsUnassigned(page.items[k])) ==> r.Proceed?
  {
    if |page.people| == 0 then Refused(NoPeopleContinueAlert)
    else if HasUnassigned(page.items) && !confirmed then Declined
    else Proceed(page.items, page.people, page.tip, page.tax)
  }

  function ItemPrice(item: Item): real
  {
    item.price
  }

  /** The subtotal shown on the page: the sum of the prices, zero for an
      empty list, and never negative while no price is. */
  function Subtotal(items: seq<Item>): (r: real)
    ensures items == [] ==> r == 0.0
    ensures AllNonNegative(ItemPrice, items) ==> r >= 0.0
  {
    SumOfNonNegative(ItemPrice, items);
    SumOf(ItemPrice, items)
  }

  /** The total shown on the page: tip and tax on top of the subtotal, so
      it is at least the subtotal while neither is negative. */
  function Total(page: Page): (r: real)
    ensures page.tip >= 0.0 && page.tax >= 0.0 ==> r >= Subtotal(page.items)
    ensures AllNonNegative(ItemPrice, page.items) && page.tip >= 0.0 && page.tax >= 0.0 ==> r >= 0.0
  {
    Subtotal(page.items) + page.tip + page.tax
  }

  // ---------------------------------------------------------------------
  // Properties relating several actions.

  /** Loading keeps the subtotal the previous page showed. */
  lemma LoadKeepsSubtotal(stored: seq<LineItems.ReceiptItem>)
    ensures Subtotal(Load(stored)) == LineItems.Subtotal(stored)
  {
    SumOfPointwise(ItemPrice, Load(stored), LineItems.Price, stored);
  }

  /** Assignment actions never change prices, so the subtotal and total
      stay what they were. */
  lemma AssignmentKeepsTotals(page: Page, itemId: string, personId: string)
    ensures Total(page.(items := Toggle(page.items, itemId, personId))) == Total(page)
    ensures Total(RemovePerson(page, personId)) == Total(page)
    ensures Total(SplitEvenly(page).page) == Total(page)
  {
    SumOfPointwise(ItemPrice, Toggle(page.items, itemId, personId), ItemPrice, page.items);
    SumOfPointwise(ItemPrice, RemovePerson(page, personId).items, ItemPrice, page.items);
    SumOfPointwise(ItemPrice, SplitEvenly(page).page.items, ItemPrice, page.items);
  }

  /** Toggling the same person on the same item twice restores the
      assignment as a set, and restores it exactly, if the person was not
      assigned to begin with; items with other ids are untouched. */
  lemma ToggleTwice(items: seq<Item>, itemId: string, personId: string)
    ensures var r := Toggle(Toggle(items, itemId, personId), itemId, personId);
            && SameLines(r, items)
            && (forall k :: 0 <= k < |items| && items[k].id != itemId ==> r[k] == items[k])
            && (forall k :: 0 <= k < |items| && items[k].id == itemId ==>
                  && (forall x :: x in Assignees(r[k]) <==> x in Assignees(items[k]))
                  && (personId !in Assignees(items[k]) ==> Assignees(r[k]) == Assignees(items[k])))
  {
    var once := Toggle(items, itemId, personId);
    forall k | 0 <= k < |items| && items[k].id == itemId && personId !in Assignees(items[k])
      ensures Assignees(Toggle(once, itemId, personId)[k]) == Assignees(items[k])
    {
      var ids := Assignees(items[k]);
      RemoveAppended(ids, personId);
      RemoveAbsent(ids, personId);
    }
  }

  /** Adding a person keeps the references valid. */
  lemma AddPersonKeepsNoDangling(page: Page, id: string)
    requires NoDangling(page.items, page.people)
    ensures NoDangling(AddPerson(page, id).items, AddPerson(page, id).people)
  {
    var r := AddPerson(page, id);
    forall k, x | 0 <= k < |r.items| && x in Assignees(r.items[k])
      ensures OnRoster(r.people, x)
    {
      assert r.items == page.items;
      assert OnRoster(page.people, x);
      var j :| 0 <= j < |page.people| && page.people[j].id == x;
      assert r.people[j].id == x;
    }
  }

  /** Removing a person keeps the references valid: the removed id is gone
      from every list, and every other listed id still names someone. */
  lemma RemovePersonKeepsNoDangling(page: Page, personId: string)
    requires NoDangling(page.items, page.people)
    ensures NoDangling(RemovePerson(page, personId).items, RemovePerson(page, personId).people)
  {
    var r := RemovePerson(page, personId);
    forall k, x | 0 <= k < |r.items| && x in Assignees(r.items[k])
      ensures OnRoster(r.people, x)
    {
      assert x in Assignees(page.items[k]) && x != personId;
      assert OnRoster(page.people, x);
      var j :| 0 <= j < |page.people| && page.people[j].id == x;
      var i :| 0 <= i < |r.people| && r.people[i] == page.people[j];
      assert r.people[i].id == x;
    }
  }

  /** Splitting evenly leaves only roster ids in every list. */
  lemma SplitEvenlyKeepsNoDangling(page: Page)
    requires NoDangling(page.items, page.people)
    ensures NoDangling(SplitEvenly(page).page.items, SplitEvenly(page).page.people)
  {
  }

  /** Toggling a roster member (the only people the page offers as
      checkboxes) keeps the references valid. */
  lemma ToggleRosterKeepsNoDangling(items: seq<Item>, people: seq<Person>, itemId: string, k: nat)
    requires NoDangling(items, people)
    requires k < |people|
    ensures NoDangling(Toggle(items, itemId, people[k].id), people)
  {
  }

  /** Toggling someone who is not on the roster is what would break the
      invariant: the page never does it. */
  lemma ToggleStrangerDangles()
    ensures var items := [Item("item-0", "Coffee", 4.5, Some([]))];
            !NoDangling(Toggle(items, "item-0", "person-1"), [])
  {
    var items := [Item("item-0", "Coffee", 4.5, Some([]))];
    var r := Toggle(items, "item-0", "person-1");
    assert ToggleIds([], "person-1") == ["person-1"];
    assert Assignees(r[0]) == ["person-1"];
    assert !OnRoster([], "person-1");
  }

  /** With no dangling references every name shown under an item resolves
      to a roster person, never to the "Unknown" fallback of a missing id. */
  lemma AssigneeNamesResolve(items: seq<Item>, people: seq<Person>, k: nat, x: string)
    requires NoDangling(items, people)
    requires k < |items| && x in Assignees(items[k])
    ensures exists j :: 0 <= j < |people| && people[j].id == x && GetPersonName(people, x) == people[j].name
  {
    var j := IndexOfId(people, x);
    assert GetPersonName(people, x) == people[j].name;
  }

  /** The roster's ids are exactly the ids of people on the roster. */
  lemma PersonIdsOnRoster(people: seq<Person>, x: string)
    ensures x in PersonIds(people) <==> OnRoster(people, x)
  {
    if OnRoster(people, x) {
      var j :| 0 <= j < |people| && people[j].id == x;
      assert PersonIds(people)[j] == x;
    }
  }
}
