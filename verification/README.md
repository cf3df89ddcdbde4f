# Scan-tap-split: a verified model of the receipt-splitting logic

This project models, in Dafny, the list logic of a receipt-splitting web
app. A receipt is either photographed and sent to a vision model through
the `/api/scrape` route, or typed in by hand. Its line items can then be
edited. Each item is assigned to the people sharing it, and the page
shows a subtotal and a total.

All of this logic runs inside React `setState` calls as pure list
transformations. The model states each one as a pure function over
immutable sequences of records:

- `wrappers.dfy` (`Wrappers`): `Option`, for JavaScript's `undefined` and `NaN`.
- `seqs.dfy` (`Seqs`): `Array.prototype.filter` and the `reduce` sum. This module proves that a filter is the unique order-preserving selection of the passing elements, and that sums split over concatenation and partition.
- `text.dfy` (`Text`): `String.prototype.trim`, using ECMAScript's whitespace set, and the decimal rendering of an integer. The module proves the rendering injective by a round trip.
- `line_items.dfy` (`LineItems`): the `{ id, name, price }` item shared by the manual-entry and edit-receipt pages. It covers `updateItem`, `removeItem`, subtotal and total.
- `manual_entry.dfy` (`ManualEntry`): the guarded add form and the empty-list guard on "Continue". The page also defines eight preset items and an action that appends one. It never renders that list and never calls the action, but both are modelled as written.
- `edit_receipt.dfy` (`EditReceipt`): loading the scanned items, which gives each item the id `item-k` for its position `k`, and appending a blank item.
- `assign_items.dfy` (`AssignItems`): the roster and per-item assignment lists. It covers loading, add/remove person, toggling a checkbox, "split evenly", name lookup, the unassigned check, and totals. The invariant proved here is that no assignment list names a person who is not on the roster.
- `js_value.dfy` (`JsValue`): the JavaScript values that `JSON.parse` yields, plus `undefined`, with truthiness and property reads.
- `scrape.dfy` (`Scrape`): the `POST` handler as a function from its inputs to its response. The inputs are the request body, the API-key setting, the upstream reply and the JSON parser. The module also models the greedy `[` … `]` extraction and the `name`/`price` validity filter.

Money is an exact `real`, so there is no IEEE rounding. Ids are strings
the caller supplies; the source derives them from `Date.now()`.
`parseFloat` appears as its result, an `Option<real>`, where `None` stands
for `NaN`. `JSON.parse` appears as a function parameter.

Three behaviours of the code are worth knowing before reading the
contracts:

- The add form refuses negative prices, but both editing pages store the in-place price box through `parseFloat(text) || 0`, which keeps a negative number (`ManualEntry.PriceEditAcceptsNegative`). A price list can therefore hold negative prices.
- "Split evenly" with an empty roster raises an alert and changes nothing (`AssignItems.SplitEvenly`).
- Only the extraction route drops malformed items (`Scrape.ValidItems`). Manual entry validates only its add form, and the edit and assignment pages take the stored list as it is.

## Model

| member | source | states |
|---|---|---|
| Text.TrimEmptyIffBlank | app/manual-entry/page.tsx:33 | a text trims to "" exactly when every character is whitespace, which is the condition under which the add forms refuse their input |
| Text.Trim | app/assign-items/page.tsx:55-58 | `trim()` gives the slice of the input between a blank prefix and a blank suffix, and the result neither starts nor ends with whitespace |
| Text.DecimalInjective | app/edit-receipt/page.tsx:27 | two numbers render to the same decimal text only if they are equal (proved through the digits-to-number round trip) |
| LineItems.UpdateItem | app/manual-entry/page.tsx:63-71 | the length is kept; items with another id are unchanged; matching items get only the edited field, and their id and other field are kept |
| LineItems.RemoveItem | app/manual-entry/page.tsx:73-75 | no item with the id remains, every item with another id is kept, and the result is an order-preserving subsequence |
| LineItems.RemoveItemExactly | app/manual-entry/page.tsx:73-75 | any order-preserving selection that drops every item with the id and keeps all others equals the result of `removeItem` |
| LineItems.RemoveItemSubtotal | app/manual-entry/page.tsx:73-77 | after a deletion, the subtotal plus the prices of the deleted items equals the old subtotal |
| LineItems.RenameKeepsSubtotal | app/manual-entry/page.tsx:63-77 | editing names never changes the subtotal |
| LineItems.Subtotal | app/manual-entry/page.tsx:77 | the subtotal of an empty list is 0, and it is never negative while no price is |
| LineItems.Total | app/manual-entry/page.tsx:78 | with non-negative tip and tax the total is at least the subtotal, and with non-negative prices as well it is non-negative |
| LineItems.NumberOrZero | app/manual-entry/page.tsx:167-172 | `parseFloat(text)`, or 0 when that is falsy, gives 0 for unparseable text and the parsed number otherwise, including negative numbers |
| ManualEntry.AddItem | app/manual-entry/page.tsx:32-52 | a blank name or price text gives the "both" alert, and a NaN or negative price gives the "valid price" alert; in both cases the page is unchanged. Otherwise exactly one item is appended, with the trimmed name and the parsed price, earlier items are unchanged and both boxes are cleared |
| ManualEntry.AddItemSubtotal | app/manual-entry/page.tsx:32-52 | a successful add raises the subtotal by exactly the parsed price, and a refused add leaves it unchanged |
| ManualEntry.AddPresetItem | app/manual-entry/page.tsx:54-61 | exactly one item is appended, carrying the preset's name and price unchanged; earlier items, the form and tip/tax are kept (the page defines this action but never calls it) |
| ManualEntry.AddPresetItemSubtotal | app/manual-entry/page.tsx:54-61 | a preset raises the subtotal by exactly its price |
| ManualEntry.PresetKeepsPricesNonNegative | app/manual-entry/page.tsx:21-30 | every preset the page defines has a non-negative price, so appending one would keep all prices non-negative (the page never calls this action) |
| ManualEntry.AddKeepsPricesNonNegative | app/manual-entry/page.tsx:34-38 | the add form never introduces a negative price |
| ManualEntry.DeleteKeepsPricesNonNegative | app/manual-entry/page.tsx:73-75 | deleting items never introduces a negative price |
| ManualEntry.PriceEditAcceptsNegative | app/manual-entry/page.tsx:167-172 | the in-place price box stores a negative price: typing -5 yields an item priced -5 |
| ManualEntry.HandleContinue | app/manual-entry/page.tsx:80-91 | continuing is refused, with the "at least one item" alert, exactly when the list is empty; otherwise the list, tip and tax are handed on unchanged |
| EditReceipt.Load | app/edit-receipt/page.tsx:25-28 | the k-th loaded item keeps its name and price and gets id `item-k`; the resulting ids are pairwise distinct |
| EditReceipt.PositionId | app/edit-receipt/page.tsx:27 | the id of position k is "item-" followed by decimal digits with no leading zero that read back as k, so the text is unique |
| EditReceipt.PositionIdInjective | app/edit-receipt/page.tsx:27 | `item-j` and `item-k` are the same id exactly when j = k |
| EditReceipt.EditsKeepDistinctIds | app/edit-receipt/page.tsx:36-48 | one field edit, or one deletion, applied to a freshly loaded list keeps its ids pairwise distinct |
| LineItems.UpdateKeepsDistinctIds | app/edit-receipt/page.tsx:36-44 | field edits never change ids, so distinct ids stay distinct |
| LineItems.RemoveKeepsDistinctIds | app/edit-receipt/page.tsx:46-48 | deletions keep the remaining ids distinct |
| EditReceipt.UpdateTouchesOneRow | app/edit-receipt/page.tsx:36-44 | with distinct ids an update rewrites at most one row |
| EditReceipt.AddNewItem | app/edit-receipt/page.tsx:50-57 | the length grows by one, earlier items are kept, and the new item has an empty name and price 0 |
| EditReceipt.AddNewItemKeepsTotal | app/edit-receipt/page.tsx:50-60 | appending a blank item leaves the subtotal and the total unchanged |
| EditReceipt.AddNewItemKeepsDistinctIds | app/edit-receipt/page.tsx:50-57 | a blank item whose id is not already on the page keeps the ids distinct |
| AssignItems.Load | app/assign-items/page.tsx:35-38 | loading keeps order, ids, names and prices, and gives every item an empty assignment list |
| AssignItems.LoadPage | app/assign-items/page.tsx:26-52 | the page starts with the loaded items (none if the stored list is absent), an empty roster, and tip/tax equal to the parsed stored texts, or 0 when unparseable; it has no dangling references |
| AssignItems.LoadKeepsSubtotal | app/assign-items/page.tsx:35-39 | the loaded list has the subtotal the previous page stored |
| AssignItems.AddPerson | app/assign-items/page.tsx:54-63 | a blank name leaves the page unchanged; otherwise exactly one person is appended, whose name is the non-empty trimmed input, and the box is cleared |
| AssignItems.Unassign | app/assign-items/page.tsx:68-73 | each item keeps its line, and its list (a missing list counts as empty) loses every occurrence of the person and nothing else: the other ids keep their order and their number of occurrences |
| AssignItems.RemovePerson | app/assign-items/page.tsx:65-74 | no person with the id remains and no list contains it; the roster keeps every entry of everyone else, in order and with duplicates (as many entries as the roster had for other ids); each list keeps the other ids in order and as often as they occurred; item count, ids, names and prices are unchanged |
| AssignItems.ToggleIds | app/assign-items/page.tsx:80-87 | after a click the person is in the list exactly when they were not before; when absent, the person is appended at the end; when present, every occurrence is dropped and the other ids keep their order and their number of occurrences |
| AssignItems.Toggle | app/assign-items/page.tsx:76-93 | only items whose id matches change, and only in their assignment list; every other item is identical afterwards |
| AssignItems.ToggleTwice | app/assign-items/page.tsx:80-87 | toggling the same (item, person) twice restores the assignment as a set, and restores it exactly, if the person was absent; other items are untouched |
| AssignItems.AssignAll | app/assign-items/page.tsx:101-106 | every item keeps its line and gets exactly the given id list |
| AssignItems.SplitEvenly | app/assign-items/page.tsx:95-107 | an empty roster gives the alert and no change; otherwise every item's list becomes the roster ids in roster order, discarding prior assignments |
| AssignItems.GetPersonName | app/assign-items/page.tsx:109-112 | returns the name of the first roster person with the id, or "Unknown" when nobody has it |
| AssignItems.IsUnassigned | app/assign-items/page.tsx:120-122 | an item counts as unassigned exactly when the list of people shown under it is empty, whether the list is missing or empty |
| AssignItems.HasUnassigned | app/assign-items/page.tsx:120-122 | true exactly when some item's list is missing or empty |
| AssignItems.HandleContinue | app/assign-items/page.tsx:114-137 | an empty roster is refused with an alert; declining the confirmation stops only when some item is unassigned; otherwise items, people, tip and tax are handed on unchanged |
| AssignItems.Subtotal | app/assign-items/page.tsx:139 | the subtotal of an empty list is 0, and it is never negative while no price is |
| AssignItems.Total | app/assign-items/page.tsx:298-301 | with non-negative tip and tax the total is at least the subtotal, and with non-negative prices as well it is non-negative |
| AssignItems.AssignmentKeepsTotals | app/assign-items/page.tsx:139 | toggle, remove-person and split-evenly never change the subtotal or total |
| AssignItems.AddPersonKeepsNoDangling | app/assign-items/page.tsx:54-63 | adding a person preserves "every assigned id names a roster person" |
| AssignItems.RemovePersonKeepsNoDangling | app/assign-items/page.tsx:65-74 | removing a person preserves the no-dangling invariant |
| AssignItems.SplitEvenlyKeepsNoDangling | app/assign-items/page.tsx:95-107 | split evenly preserves the no-dangling invariant |
| AssignItems.ToggleRosterKeepsNoDangling | app/assign-items/page.tsx:232-243 | toggling a roster member, the only people the checkboxes offer, preserves the no-dangling invariant |
| AssignItems.ToggleStrangerDangles | app/assign-items/page.tsx:76-93 | toggling an id that is not on the roster would break the invariant, so the restriction to roster members is needed |
| AssignItems.AssigneeNamesResolve | app/assign-items/page.tsx:255-260 | without dangling references every name listed under an item is a roster person's name, never the "Unknown" fallback for a missing id |
| AssignItems.PersonIdsOnRoster | app/assign-items/page.tsx:104 | the id list split evenly assigns contains exactly the roster's ids |
| Scrape.Post | app/api/scrape/route.ts:3-179 | the response is 400, with the error "No image provided", exactly when the image is missing; a request body that does not parse gives the catch-all mock response carrying the parser's message, and a `null` body gives it carrying the `TypeError` from reading `base64Image`; every other response carries a non-empty item list; an absent or placeholder key gives the key-missing mock response; a configured key with a short image gives the too-short mock response; otherwise the response is that of the upstream call; extracted items require a 2xx reply and are all valid |
| Scrape.KeyConfigured | app/api/scrape/route.ts:12-17 | the mock response is chosen for exactly three settings: unset, empty, and the placeholder key |
| Scrape.TooShort | app/api/scrape/route.ts:39 | a string image is too short exactly when it has fewer than 100 characters; a number or boolean never is; an object is judged by its own `length`: a number is compared with 100, `null` and booleans always are too short, and a missing `length` never is |
| Scrape.KeyCheckPrecedesCall | app/api/scrape/route.ts:17-33 | without a configured key the response is the mock list regardless of image length and of any upstream reply |
| Scrape.ShortImageSkipsCall | app/api/scrape/route.ts:39-51 | with a configured key, an image shorter than 100 characters gives the mock list whatever the upstream would answer |
| Scrape.UpstreamErrorReported | app/api/scrape/route.ts:86-103 | a non-2xx reply gives status 200, the mock list, a message containing the status code in decimal, and the reply body as `error` |
| Scrape.ExtractArray | app/api/scrape/route.ts:117-123 | with some `[` before some `]`, the result is the slice from the first `[` to the last `]` inclusive; otherwise it is the whole content |
| Scrape.ExtractArrayCoversEveryPair | app/api/scrape/route.ts:120 | the extracted slice contains every `[` … `]` pair, so it is the leftmost, longest match of the greedy pattern |
| Scrape.IsValidItem | app/api/scrape/route.ts:132-137 | among parsed JSON values, exactly the objects with an own string `name` and an own number `price` are valid |
| Scrape.ValidItems | app/api/scrape/route.ts:132-137 | keeps every element that is truthy with a string `name` and a number `price`, keeps nothing else, and preserves order |
| Scrape.MockItemsValid | app/api/scrape/route.ts:21-26 | all four mock items pass the route's own validity filter |
| Scrape.ParseContent | app/api/scrape/route.ts:115-161 | items are extracted exactly when the content is a string whose bracketed slice parses to an array with at least one valid item; every other case gives the mock list with the parse-failure message and the raw content |
| Scrape.HasMessage | app/api/scrape/route.ts:108-110 | a reply passes the structure check only if it is an object whose first choice is an object with a `message`, and every non-empty `choices` array whose first element has a truthy `message` passes |
| Scrape.Interpret | app/api/scrape/route.ts:105-113 | a null reply throws reading `choices`; any other reply without a truthy `choices[0].message` fails with "Invalid response structure"; both give the mock list through the catch-all handler. Otherwise the message content is parsed |
| Scrape.CallUpstream | app/api/scrape/route.ts:53-110 | a failed request, or a 2xx body that does not parse, gives the catch-all mock response carrying the error message; a 2xx reply is interpreted; items are extracted only from a 2xx reply; the item list is never empty |
| Scrape.ExtractedItemsAreValidSubsequence | app/api/scrape/route.ts:125-143 | extracted items are exactly the valid elements of the parsed array, in order: a subsequence whose length is the number of valid elements |

## Left out

- React rendering, JSX, styling, `app/page.tsx`, `app/layout.tsx` and `next.config.js` contain static markup and configuration. They have no list logic.
- `app/scan/page.tsx` is not part of this model. It does browser I/O: file reading, drag and drop, MIME checks, the request with its timeout, and navigation.
- `localStorage`, `JSON.stringify`, router navigation, `alert` and `confirm` are left out. Stored values arrive as parameters. An alert is the text in the result. A confirmation is a boolean input (`AssignItems.HandleContinue`).
- The upstream `fetch` and its request body (model name, prompt, image URL) are left out. The reply is an abstract `Upstream` input, and `JSON.parse` is the `parse` parameter.
- The text of a runtime `TypeError` is engine-specific. It is recorded only as the property being read (`ErrorText.TypeErrorReading`).
- Scrape.TooShort: converts a `length` that is a number, `null` or a boolean as JavaScript's `<` does. The conversion of a string, array or object `length` (for instance `"50"` to 50, or `[]` to 0) is not modelled; the model treats all of them as not below 100.
- JsValue.Value.Field: reads only objects' own properties and the `length` of strings and arrays. Prototype members (methods such as `toString`) read as `undefined`.
- String lengths count Unicode scalar values, while JavaScript counts UTF-16 code units. They agree on base64 text, which is ASCII.
- `parseFloat` semantics (which prefixes parse, and `Infinity`) are not modelled: its result is an input. `toFixed(2)` display rounding and IEEE float accumulation are not modelled either: money is exact.
- `Date.now()` ids are caller-supplied strings. Uniqueness is not claimed for manual-entry items or people, because the code does not guarantee it.
- The per-person tip and tax allocation and the summary screen are not part of this model. That code is not among the modelled files.
- The edit-receipt page's "Continue" stores the list, tip and tax and navigates. It has no guard of its own; the button is only disabled while the list is empty.
- The tip and tax boxes on the editing pages write `parseFloat(text) || 0`. That is `LineItems.NumberOrZero`, with no further logic.
- The `console.log` and `console.error` calls in the route and the pages are diagnostics with no effect on the result, and are left out.
- Stored items are spread into new objects, so fields other than id, name and price survive loading and editing. `LineItems.RawItem`, `LineItems.ReceiptItem` and `AssignItems.Item` keep only the fields the pages read.
