# DiviCuenta bill splitting, modelled in Dafny

DiviCuenta is a React app for splitting a restaurant bill. The user enters or scans the items. They add diners and tick
which diners share which item. Each diner then gets a bill: their share of every item they are on, rounded up to a
whole peso, plus a 10% tip, also rounded up. When the bill is saved it goes into a history where diners are marked paid
one by one. A diner's bill can be sent by e-mail or WhatsApp as a plain-text message.

This project models that core and proves what it promises:

- `types.dfy` (`Types`): the records of `types.ts`. An item price is a whole number of pesos, and a share is an exact
  `real`.
- `text.dfy` (`Text`): the string helpers the pages use:
  - `trim` over the white space of ECMA-262;
  - the `[^0-9]` filter and `parseInt` of a digit string;
  - `split(' ')` and `join`;
  - the ASCII part of `toUpperCase`.
- `assignments.dfy` (`Assignments`): the assignment object as an ordered sequence of `(itemId, dinerIds)` slots with
  distinct keys. `{...prev, [k]: v}` keeps an existing key where it is and appends a new one at the end. `delete`
  drops the key. `for...in` walks the slots in that order.
- `bill_calculator.dfy` (`BillCalculator`): `useBillCalculator`.
  - The per-diner loop is an imperative method proved equal to a specification function.
  - The conservation of shares is proved over a diners-by-slots table (`sums.dfy`, `Sums`).
  - The rounding bounds are proved for one diner and for the whole table.
- `bill_detail.dfy` (`BillDetail`): the bill page. Its own loop rounds each share up before summing. The model relates
  it to the hook's path. It also models the message object built by the page's share button.
- `app_context.dfy` (`AppContext`): the session store, as a class `Session` whose methods replace its fields. Each
  transition is also a pure function with its own lemmas.
- `history_detail.dfy` (`HistoryDetail`): the payment summary of a saved bill and the "Marcar Pagado" action.
- `messaging.dfy` (`Messaging`): `formatCurrency` and `generatePlainTextBill`. The template's fixed texts are a `Texts`
  value, so the proofs about the layout hold for any clean texts. `Spanish` holds the texts the app writes.
- `edit_bill.dfy`, `assign_diners.dfy`, `confirmation.dfy`: the price input, the diner form, the initials, the
  finalize gate, the phone normaliser and the saved history entry.

Ids, dates and the stored user and history are parameters.

Three behaviours of the code shape what is proved:

- Two rounding disciplines really exist: the hook rounds only the sum, the bill page rounds each share first.
  `BillDetail.RoundingPathsCompared` bounds the gap and `BillDetail.RoundingPathsDiffer` shows a case where it is one
  peso.
- `updatePaymentStatus` with a diner id missing from `payments` adds the key (context/AppContext.tsx:172). Setting
  a flag to true and then false therefore leaves a `false` entry rather than the original map
  (`AppContext.SetPayment`, `AppContext.SetPaymentLastWins`).
- Conservation of shares needs more than "every item has a diner". Diner ids must be distinct, each list must be
  duplicate-free and name only listed diners (`BillCalculator.WellFormed`). Otherwise a diner listed twice pays twice.

## Model

| member | source | states |
|---|---|---|
| Text.Trim | pages/AssignDiners.tsx:28-30 | the result is a slice of the input with only white space before and after it, and it neither starts nor ends with white space |
| Text.TrimEmptyIff | pages/AssignDiners.tsx:32 | a field trims to the empty string exactly when it is all white space |
| Text.Digits | pages/EditBill.tsx:21 | the filter leaves only decimal digits and never lengthens the input |
| Text.DigitsAppend | pages/EditBill.tsx:21 | the global `[^0-9]` replace works piecewise: the digits of a concatenation are the digits of each part, concatenated |
| Text.DigitsOfDigits | pages/Confirmation.tsx:39 | a digit string passes the filter unchanged |
| Text.DigitsNone | pages/EditBill.tsx:21 | a string without digits filters to the empty string |
| Text.DecimalValue | pages/EditBill.tsx:22 | `parseInt` of n digits is below 10^n |
| Text.DecimalRoundTrip | pages/EditBill.tsx:22 | `parseInt` of the decimal writing of n is n |
| Text.Split | pages/AssignDiners.tsx:10 | `split` gives at least one piece, and no piece holds the separator |
| Text.Join | pages/AssignDiners.tsx:10 | a non-empty `join` opens with its first piece |
| Text.JoinSplit | pages/AssignDiners.tsx:10 | joining the pieces of `split` with the separator gives the string back |
| Text.FirstSegment | utils/messaging.ts:14 | `split(' ')[0]` is the prefix up to the first space, or the whole string; it holds no space |
| Text.FirstSegmentProps | utils/messaging.ts:14 | the first piece of the split is a prefix ending at a space or at the end of the input |
| Text.UpperChar | pages/AssignDiners.tsx:10 | no lower-case ASCII letter comes out; a lower-case letter becomes the capital 32 code points below it, and any other character is kept |
| Text.ToUpper | pages/AssignDiners.tsx:10 | same length, no lower-case ASCII letter left, every other character kept in its place and every lower-case letter replaced by its capital |
| Text.ToUpperIdempotent | pages/AssignDiners.tsx:10 | upper-casing an upper-cased string changes nothing |
| Assignments.Lookup | context/AppContext.tsx:115 | `prev[itemId] \|\| []`: an absent key reads as the empty list, and a non-empty result is the list of a slot with that key |
| Assignments.LookupAt | context/AppContext.tsx:125 | with distinct keys, looking up a slot's key gives that slot's list |
| Assignments.Put | context/AppContext.tsx:120 | the spread keeps an existing key in its place and appends a new key at the end |
| Assignments.PutLookup | context/AppContext.tsx:120 | after the spread the key maps to the new list and every other key to what it mapped to before |
| Assignments.PutPreserves | context/AppContext.tsx:120 | distinct keys stay distinct and every other slot stays at its index |
| Assignments.Remove | context/AppContext.tsx:135-139 | `delete` keeps exactly the slots with other keys, never grows, and the key is gone |
| Assignments.RemoveAppend | context/AppContext.tsx:135-139 | `delete` works slot by slot, so with `Remove`'s clauses the remaining slots keep their number and their `for...in` order |
| Assignments.RemoveAt | context/AppContext.tsx:135-139 | with distinct keys, deleting a slot's key leaves exactly the slots before and after it, in order |
| Assignments.RemoveLookup | context/AppContext.tsx:135-139 | every other key keeps its list; deleting an absent key changes nothing |
| Assignments.RemoveDistinct | context/AppContext.tsx:135-139 | deleting keeps the keys distinct |
| BillCalculator.Ceil | hooks/useBillCalculator.ts:45 | `Math.ceil`: the least integer not below x |
| BillCalculator.CeilOfInt | pages/BillDetail.tsx:41 | a whole number is its own ceiling |
| BillCalculator.Tip | hooks/useBillCalculator.ts:46 | `ceil(subtotal * 0.1)` in exact arithmetic: the least tip whose tenfold reaches the subtotal, never negative for a non-negative subtotal |
| BillCalculator.TipLeast | hooks/useBillCalculator.ts:46 | any m with 10m at least the subtotal is at least the tip |
| BillCalculator.TipMonotone | hooks/useBillCalculator.ts:46 | a larger subtotal never gets a smaller tip |
| BillCalculator.TipSubadditive | hooks/useBillCalculator.ts:46-57 | the tip of a sum is at most the sum of the tips |
| BillCalculator.FindItem | hooks/useBillCalculator.ts:31 | `items.find`: nothing exactly when no item has the id, otherwise the first item that has it |
| BillCalculator.ShareLine | hooks/useBillCalculator.ts:30-39 | a slot gives a line exactly when it lists the diner and its item exists; the line has the item's name, the list length as `sharedWith`, and a price that times `sharedWith` is the item's price |
| BillCalculator.LinesFor | hooks/useBillCalculator.ts:28-43 | at most one line per slot, each with a positive `sharedWith` and a non-negative price |
| BillCalculator.LinesComeFromItems | hooks/useBillCalculator.ts:31-39 | every line is an item of the bill with that item's name and an even share of its price |
| BillCalculator.LinesForSnoc | hooks/useBillCalculator.ts:28-39 | a slot that lists the diner and names an existing item appends exactly its line at the end, so lines follow key order |
| BillCalculator.BillFor | hooks/useBillCalculator.ts:19-47 | the bill keeps the diner and its lines; exact sum of shares <= subtotal < exact sum + 1; the tip is the ceiling of a tenth; total = subtotal + tip |
| BillCalculator.Bills | hooks/useBillCalculator.ts:19-49 | one bill per diner, in the diners' order, each for that diner with that diner's lines and total = subtotal + tip |
| BillCalculator.ComputeDinerBill | hooks/useBillCalculator.ts:20-47 | the `for...in` loop with its pushes and `+=` produces exactly `BillFor` |
| BillCalculator.CalculateBills | hooks/useBillCalculator.ts:15-60 | one bill per diner, in the diners' order, each `BillFor`; the bill-wide total is `TotalBill` |
| BillCalculator.TotalBill | hooks/useBillCalculator.ts:53-58 | the sum of all prices plus the ceiling of its tenth, whatever the diners and assignments |
| BillCalculator.ItemsSum | hooks/useBillCalculator.ts:53-55 | the sum of prices is at least every price, and 0 exactly when every price is 0 |
| BillCalculator.ItemsSumAppend | hooks/useBillCalculator.ts:53-55 | the sum of two item lists put together is the sum of their sums |
| BillCalculator.UnassignedPaysNothing | hooks/useBillCalculator.ts:20-47 | a diner on no list gets no lines and subtotal, tip and total 0 |
| BillCalculator.PruneMembers | hooks/useBillCalculator.ts:31-32 | the pruned assignment keeps exactly the slots whose item exists |
| BillCalculator.StaleKeysIgnored | hooks/useBillCalculator.ts:31-32 | keys with no matching item are skipped: dropping them changes no bill |
| BillCalculator.SetOfSize | hooks/useBillCalculator.ts:33 | a duplicate-free list has as many distinct ids as entries |
| BillCalculator.CountInAll | hooks/useBillCalculator.ts:30 | with distinct diner ids, as many diners match a set of their ids as the set has members |
| BillCalculator.ColumnIsSlotPrice | hooks/useBillCalculator.ts:30-34 | summed over the diners, one slot's shares give back its item's price |
| BillCalculator.RowIsLineSum | hooks/useBillCalculator.ts:28-40 | summed over the slots, one diner's shares are the exact sum of its lines |
| BillCalculator.SharesConserved | hooks/useBillCalculator.ts:28-41 | with distinct diner ids and duplicate-free lists of listed diners, the diners' exact shares add up to the prices of the items whose list is non-empty |
| BillCalculator.AssignedTotalCoversItems | hooks/useBillCalculator.ts:28-41 | when every item has a diner, the assigned prices are all the prices |
| BillCalculator.SharesCoverBill | hooks/useBillCalculator.ts:28-41 | a well-formed session with every item assigned: the exact shares add up to the sum of all prices |
| BillCalculator.TotalSum | hooks/useBillCalculator.ts:47 | the diners' totals are their subtotals plus their tips |
| BillCalculator.SubtotalRounding | hooks/useBillCalculator.ts:45 | the diners' subtotals exceed the exact shares by less than one peso per diner |
| BillCalculator.SubtotalsCoverBill | hooks/useBillCalculator.ts:45-54 | with every item assigned, the subtotals cover the item prices and exceed them by at most diners - 1 |
| BillCalculator.TipSumCoversTip | hooks/useBillCalculator.ts:46-57 | the diners' tips together are at least the tip on their subtotals |
| BillCalculator.DinerTotalsCoverTotalBill | hooks/useBillCalculator.ts:45-58 | with every item assigned, the diners together owe at least the bill-wide total |
| BillCalculator.PizzaAndSodaFirstDiner | hooks/useBillCalculator.ts:45-47 | half a 10000 pizza and a 2000 soda: 7000, tip 700, total 7700 |
| BillCalculator.PizzaAndSodaSecondDiner | hooks/useBillCalculator.ts:28-47 | only the other half of the pizza: 5000, 500, 5500 |
| BillCalculator.PizzaAndSodaTotal | hooks/useBillCalculator.ts:53-58 | the same bill's total is 13200 |
| BillCalculator.ThreeWaySplit | hooks/useBillCalculator.ts:33-47 | a 1000 item shared three ways: 334, 34, 368 each, and a bill-wide total of 1100 |
| BillDetail.FindDiner | pages/BillDetail.tsx:22 | `diners.find`: nothing exactly when no diner has the id, otherwise the first that has it |
| BillDetail.BillDetails | pages/BillDetail.tsx:21-52 | null exactly when the diner is missing; otherwise the found diner, the tip as the ceiling of a tenth and total = subtotal + tip |
| BillDetail.ComputeBillDetails | pages/BillDetail.tsx:21-52 | the page's loop with `let subtotal` and `push` produces exactly `BillDetails` |
| BillDetail.CeilUnique | pages/BillDetail.tsx:34 | the ceiling is the one integer m with m - 1 < x <= m |
| BillDetail.CeilDiv | pages/BillDetail.tsx:34 | `Math.ceil(price / k)` is the integer `(price + k - 1) / k` |
| BillDetail.RoundedLinePrice | pages/BillDetail.tsx:33-35 | a listed item shows `(price + k - 1) / k` with k the length of its list |
| BillDetail.RoundedLinesAreCeilOfShares | pages/BillDetail.tsx:28-39 | the page lists the hook's lines, in the same order, each price rounded up |
| BillDetail.RoundedLinesWhole | pages/BillDetail.tsx:28-39 | at most one line per slot, each shared by at least one diner and priced at a whole, non-negative amount |
| BillDetail.CeilLinesSum | pages/BillDetail.tsx:36 | the sum of rounded prices is a whole number |
| BillDetail.CeilLinesIntegral | pages/BillDetail.tsx:41 | the second `Math.ceil` changes nothing |
| BillDetail.CeilLinesBounds | pages/BillDetail.tsx:34-36 | rounding each line up raises the sum by less than the number of lines |
| BillDetail.CeilLines | pages/BillDetail.tsx:34-35 | same number of lines, each the line with its price rounded up |
| BillDetail.RoundingPathsCompared | pages/BillDetail.tsx:34-41 | the page's subtotal is the sum of its rounded prices; it is at least the hook's and at most the hook's plus lines - 1; with no lines both are 0 |
| BillDetail.RoundingPathsDiffer | pages/BillDetail.tsx:34-41 | two 1000 items shared three ways: the hook charges 667, the page 668 |
| BillDetail.ShareMessageBill | pages/BillDetail.tsx:57-63 | the message keeps diner, subtotal, tip and total, and each line keeps its name and `sharedWith` while its price is the page's price divided by that `sharedWith` |
| BillDetail.ShareMessageDividesTwice | pages/BillDetail.tsx:59 | a 1000 item shared by two shows as 250 in the message while the page shows 500 |
| BillDetail.ShareMessageBillFixed | pages/BillDetail.tsx:57-63 | the message keeps diner, amounts, names and `sharedWith` |
| BillDetail.ShareMessageFixedShowsShares | pages/BillDetail.tsx:57-63 | the corrected message shows each share rounded up as the hook computes it, and its prices add up to the subtotal it states |
| AppContext.Without | context/AppContext.tsx:118 | the filter keeps exactly the other ids and never grows; without the id it is the list itself |
| AppContext.ToggledList | context/AppContext.tsx:115-119 | the diner is on the new list exactly when it was not on the old; every other id is on it exactly when it was before |
| AppContext.Toggle | context/AppContext.tsx:113-121 | the toggle flips the diner in the item's list, keeps every other diner of it and every other key's list; the key is kept in place or appended; keys stay distinct |
| AppContext.WithoutNoDup | context/AppContext.tsx:118 | filtering keeps a list duplicate-free |
| AppContext.ToggleKeepsNoDup | context/AppContext.tsx:115-119 | the toggle keeps every list duplicate-free |
| AppContext.WithoutAppended | context/AppContext.tsx:118-119 | removing a diner just appended gives the old list back |
| AppContext.ToggleTwiceRestoresList | context/AppContext.tsx:115-119 | toggling a diner who was not on the list twice restores the list |
| AppContext.ToggleTwiceRestores | context/AppContext.tsx:113-121 | for a key already present, toggling twice restores the whole assignment |
| AppContext.ToggleTwiceAbsentKey | context/AppContext.tsx:120 | for an absent key, toggling twice leaves an empty slot appended at the end |
| AppContext.EmptySlotAddsNoLines | hooks/useBillCalculator.ts:28-30 | that empty slot changes no bill |
| AppContext.DinersIn | context/AppContext.tsx:126 | the filter keeps exactly the diners whose id is listed, and never grows |
| AppContext.DinersInAppend | context/AppContext.tsx:126 | the filter works piece by piece, so with `DinersIn`'s clauses each listed diner appears once, in the session's order |
| AppContext.DinersAssignedTo | context/AppContext.tsx:124-127 | exactly the session's diners whose id is on the item's list, never more than the session has, nobody for an absent key |
| AppContext.DinersAssignedToAppend | context/AppContext.tsx:124-127 | the item's diners of two diner lists put together are those of each, in order |
| AppContext.ToggleFlipsAssignedDiners | context/AppContext.tsx:124-127 | after a toggle `getDinersAssignedToItem` gains or loses exactly the toggled diner |
| AppContext.RemoveItems | context/AppContext.tsx:134 | exactly the items with other ids remain, the list never grows; an absent id changes nothing |
| AppContext.RemoveItemsAppend | context/AppContext.tsx:134 | the filter works piece by piece, so with `RemoveItems`'s clauses the survivors keep their number and their order |
| AppContext.RemoveItemsAt | context/AppContext.tsx:134 | deleting the one item with that id leaves the items before and after it, in order, and takes its price off the sum |
| AppContext.UpdateItems | context/AppContext.tsx:130 | same length and ids; a matching item gets only the supplied name and price; every other item is unchanged |
| AppContext.UpdateItemsIdempotent | context/AppContext.tsx:130 | the same update twice equals once |
| AppContext.RenameKeepsTotal | context/AppContext.tsx:130 | a rename without a price keeps the sum of prices and the bill-wide total |
| AppContext.PaymentsFor | context/AppContext.tsx:157-160 | the `reduce` gives exactly the diners' ids as keys, all unpaid |
| AppContext.NewEntry | context/AppContext.tsx:151-161 | the entry carries the given id, date and bill data, and a payments map of exactly its diners, all false |
| AppContext.SetPayment | context/AppContext.tsx:168-176 | only entries with that id change, and only in `payments`: the key is added if absent and set to the flag, and other keys are kept |
| AppContext.SetPaymentAt | context/AppContext.tsx:170-175 | each entry is updated or left as it was, by its id |
| AppContext.SetPaymentUnknown | context/AppContext.tsx:170-175 | an unknown history id leaves the history unchanged |
| AppContext.SetPaymentLastWins | context/AppContext.tsx:172 | a second call for the same diner overrides the first |
| AppContext.SetPaymentIdempotent | context/AppContext.tsx:168-179 | the same call twice equals once |
| AppContext.SetPaymentCommutes | context/AppContext.tsx:172 | calls for two different diners commute |
| AppContext.PayerInfoOf | context/AppContext.tsx:94-105 | a logged-in user's five payer fields, otherwise the fixed guest profile |
| AppContext.PayerIgnoresCredentials | context/AppContext.tsx:96-102 | the payer data does not depend on the user's id, e-mail, phone or password |
| AppContext.Session.constructor | context/AppContext.tsx:41-59 | an empty bill, with the user and history as read from storage |
| AppContext.Session.SetItems | context/AppContext.tsx:42 | replaces the items and nothing else |
| AppContext.Session.AddDiner | context/AppContext.tsx:107-111 | returns the new diner and appends it, nothing else changes |
| AppContext.Session.ToggleAssignment | context/AppContext.tsx:113-122 | the assignment becomes `Toggle` of the old one, nothing else changes, and for a key already there a second toggle of a diner just added restores the old object (the unique keys of `Valid` make this hold) |
| AppContext.Session.UpdateItem | context/AppContext.tsx:129-131 | the items become `UpdateItems` of the old ones, nothing else changes |
| AppContext.Session.DeleteItem | context/AppContext.tsx:133-140 | the items become `RemoveItems` of the old ones and the assignment `Remove` of the old one, nothing else changes; `RemoveItemsAppend` and `RemoveAppend` fix which items and slots remain and their order, `RemoveItemsAt` the survivors and the sum for a unique id |
| AppContext.Session.AddItem | context/AppContext.tsx:142-145 | appends exactly one item with the given fields, nothing else changes |
| AppContext.Session.UpdateCurrentBillInfo | context/AppContext.tsx:147-149 | sets the restaurant when one is given, nothing else changes |
| AppContext.Session.ResetState | context/AppContext.tsx:61-66 | empties the bill and keeps the user and the history |
| AppContext.Session.AddHistoryEntry | context/AppContext.tsx:151-166 | prepends exactly the new entry; older entries are unchanged |
| AppContext.Session.UpdatePaymentStatus | context/AppContext.tsx:168-180 | the history becomes `SetPayment` of the old one, nothing else changes |
| HistoryDetail.FindEntry | pages/HistoryDetail.tsx:13-15 | `history.find`: nothing exactly when no entry has the id, otherwise the first that has it |
| HistoryDetail.Summary | pages/HistoryDetail.tsx:23-35 | a missing entry gives 0, 0, false; otherwise paid is the total of the paid diners' bills, remaining = entry total - paid, and fully paid exactly when remaining <= 0 |
| HistoryDetail.PaidAmount | pages/HistoryDetail.tsx:26-28 | 0 when no bill's diner is flagged paid, and never negative when no total is |
| HistoryDetail.ExactSumNonneg | hooks/useBillCalculator.ts:40 | shares of non-negative prices add up to a non-negative amount |
| HistoryDetail.BillTotalNonneg | hooks/useBillCalculator.ts:45-47 | every diner's total is non-negative |
| HistoryDetail.EntryBills | pages/HistoryDetail.tsx:17-21 | one bill per diner of the entry, in order, with that diner's lines, and no total negative |
| HistoryDetail.MarkPaidMonotone | pages/HistoryDetail.tsx:26-28 | marking a diner paid never lowers the paid amount |
| HistoryDetail.MarkPaidAdds | pages/HistoryDetail.tsx:26-28 | marking an unpaid diner with a unique id adds exactly their total |
| HistoryDetail.SamePaidAmount | pages/HistoryDetail.tsx:26-28 | marking an id no bill has changes nothing |
| HistoryDetail.AllPaidIsTotalSum | pages/HistoryDetail.tsx:26-28 | when every diner is paid, the paid amount is the sum of all diner totals |
| HistoryDetail.AllPaidMeansFullyPaid | pages/HistoryDetail.tsx:26-31 | for a well-formed saved bill with every item assigned, everyone paid means fully paid |
| HistoryDetail.PaidOfTwo | pages/HistoryDetail.tsx:26-28 | for two bills the fold adds the totals of those flagged paid |
| HistoryDetail.FullyPaidWithSomeoneUnpaid | pages/HistoryDetail.tsx:30-31 | a bill can count as fully paid with a diner still unpaid |
| HistoryDetail.EveryonePaidNotFullyPaid | pages/HistoryDetail.tsx:30-31 | a bill can have every diner paid and still not count as fully paid, when items are unassigned |
| HistoryDetail.FindAfterSetPayment | pages/HistoryDetail.tsx:13-15 | after `updatePaymentStatus` the entry found is the old one with that one flag set |
| HistoryDetail.MarkOffered | pages/HistoryDetail.tsx:99 | the button is offered exactly for an unpaid diner of a found entry with an amount still to pay |
| HistoryDetail.MarkPaid | pages/HistoryDetail.tsx:101 | the history keeps its length; for a found entry the entry found afterwards is the old one with the diner's flag set, so the diner reads as paid; an unknown id changes nothing |
| HistoryDetail.MarkPaidEffect | pages/HistoryDetail.tsx:99-101 | the offered action marks the diner paid, never lowers the paid amount and, for a diner of the entry, raises it by exactly their total |
| HistoryDetail.NewEntryNothingPaid | pages/HistoryDetail.tsx:23-31 | a fresh entry has nothing paid and the whole total remaining |
| Messaging.Group | utils/messaging.ts:4 | up to three digits are kept as they are, and grouping never shortens |
| Messaging.GroupDigits | utils/messaging.ts:4 | dropping the separators from a grouped number gives its digits back |
| Messaging.GroupParts | utils/messaging.ts:4 | the first group has one to three digits, every later group exactly three, and together they are the digits |
| Messaging.LocaleNumber | utils/messaging.ts:4 | the rendering is non-empty, its digits are those of the magnitude, and a negative number starts with '-' |
| Messaging.FormatCurrency | utils/messaging.ts:3-5 | the rendering starts with '$' |
| Messaging.FormatCurrencyReadsBack | utils/messaging.ts:3-5 | the digits of the rendering read back as the magnitude, and a '-' follows the '$' exactly for a negative amount |
| Messaging.ItemLine | utils/messaging.ts:9 | a line is "- ", the item's name, its sharing note, then ": " and the price rounded up and rendered, each piece where the one before ends |
| Messaging.SharedNote | utils/messaging.ts:9 | the note is empty exactly when at most one diner shares the item |
| Messaging.SharedNoteReadsBack | utils/messaging.ts:9 | a non-empty note is " (dividido entre " and a closing ')' around digits that read back as `sharedWith` |
| Messaging.ItemLineNote | utils/messaging.ts:9 | for a name without '(', the line holds '(' exactly when more than one diner shares the item |
| Messaging.ItemsText | utils/messaging.ts:8-10 | no lines give the empty text; otherwise it opens with the first item line |
| Messaging.ItemsTextLines | utils/messaging.ts:8-10 | cutting the items text at its line breaks gives the item lines back, with nothing after the last one, when no name holds a line break |
| Messaging.ItemLineAvoids | utils/messaging.ts:9 | an item line holds no character that its name, its fixed text and its numbers lack |
| Messaging.LayoutGreetingAndThanks | utils/messaging.ts:14-27 | for any texts, the joined layout starts with the greeting up to the first name and ends with the thanks |
| Messaging.GreetingAndThanks | utils/messaging.ts:14-27 | the message opens with "Hola ", the first name and "! ", and ends with "¡Gracias!" |
| Messaging.PlainTextBill | utils/messaging.ts:7-28 | the message opens with the greeting up to the diner's first name and ends with the thanks |
| Messaging.LayoutShowsAmounts | utils/messaging.ts:15-19 | the items text has its own line, and the amount lines end with the subtotal, the tip and the total |
| Messaging.LayoutShowsPayer | utils/messaging.ts:22-26 | the payer lines end with name, RUT, bank, account type and account number, in that order |
| Messaging.MessageLines | utils/messaging.ts:14-27 | the items text has its own line, the rendered subtotal, tip and total end their lines, and the payer's five fields end the five payer lines in order |
| Messaging.SpanishClean | utils/messaging.ts:14-27 | the template's own texts hold no '*' and no emoji |
| Messaging.LayoutClean | utils/messaging.ts:12-27 | filled with clean pieces, every line of the plain layout is clean |
| Messaging.PlainHasNoMarkup | utils/messaging.ts:12-27 | without `forWhatsApp` the message has no '*' and no emoji |
| Messaging.LayoutStripMarked | utils/messaging.ts:14-26 | the greeting, the total line and the five payer lines lose exactly their markup |
| Messaging.LayoutSame | utils/messaging.ts:15-27 | every other line is the same in both variants |
| Messaging.WhatsAppIsPlainPlusMarkup | utils/messaging.ts:12-27 | dropping '*' and the emoji from the WhatsApp message gives the plain message |
| Messaging.WhatsAppBold | utils/messaging.ts:12-26 | in the WhatsApp variant the greeting carries the waving hand after the "!", the total line is wrapped in '*', and each payer line is its tag wrapped in '*', a space and the payer's field |
| EditBill.PriceFromInput | pages/EditBill.tsx:20-24 | the price is a non-negative integer, and 0 for an input without digits |
| EditBill.PriceOfTyping | pages/EditBill.tsx:21-23 | typing a digit shifts the price one decimal place and adds it; any other character changes nothing |
| EditBill.PriceIgnoresSeparators | pages/EditBill.tsx:21 | non-digits before or after the input do not change the price |
| EditBill.PriceSkipsSeparator | pages/EditBill.tsx:21 | a non-digit between two runs of input is skipped |
| EditBill.PriceOfDigits | pages/EditBill.tsx:22 | a digit string reads as its decimal value |
| EditBill.PriceOfGroupedThousands | pages/EditBill.tsx:21-22 | "d.ddd" reads as the four-digit number |
| EditBill.PriceOfGroupedInput | pages/EditBill.tsx:21-22 | "1.500" reads as 1500 |
| EditBill.PriceReadsBackRendering | pages/EditBill.tsx:60-61 | the price field shows the grouped number, and reading it back gives the price |
| EditBill.HandlePriceChange | pages/EditBill.tsx:20-24 | the item gets the price read from the input, nothing else changes |
| EditBill.PriceChangeEffect | pages/EditBill.tsx:20-24 | every item with that id gets the typed price and keeps its name; every other item is unchanged |
| EditBill.HandleAddItem | pages/EditBill.tsx:16-18 | appends "Nuevo Producto" at 0, which enables "Confirmar y Asignar" and keeps the total |
| EditBill.FreeItemKeepsTotal | pages/EditBill.tsx:16-18 | an item at price 0 changes neither the sum of prices nor the bill-wide total |
| AssignDiners.IndexOf | pages/AssignDiners.tsx:42 | the first position of the character, or the length when it is absent |
| AssignDiners.EmailPatternIff | pages/AssignDiners.tsx:42 | the regex accepts exactly: no white space, one '@' with something before it, and a '.' after it that is neither first nor last in the domain |
| AssignDiners.EmailAcceptsExample | pages/AssignDiners.tsx:42 | "ana@mail.cl" is accepted |
| AssignDiners.EmailNeedsDotExample | pages/AssignDiners.tsx:42 | "ana@cl" is refused |
| AssignDiners.EmailNeedsLocalPartExample | pages/AssignDiners.tsx:42 | "@mail.cl" is refused |
| AssignDiners.ValidateNewDiner | pages/AssignDiners.tsx:26-53 | the guards in order name, contact, e-mail format, and the first that fails decides the refusal; accepted forms are exactly those passing all three, with the trimmed name and empty contacts as no value |
| AssignDiners.AcceptedFormIsClean | pages/AssignDiners.tsx:28-50 | an accepted diner has a non-empty name with no white space at either end, at least one contact, no empty field and an e-mail of the accepted shape |
| AssignDiners.HandleAddDiner | pages/AssignDiners.tsx:26-53 | a refused form shows its message and adds nothing; an accepted one appends exactly one diner; nothing else changes |
| AssignDiners.Initial | pages/AssignDiners.tsx:10 | a segment contributes at most one character |
| AssignDiners.GetInitials | pages/AssignDiners.tsx:9-11 | at most two characters, the first the capital of the name's first character when it is not a space |
| AssignDiners.InitialsOfTwoWords | pages/AssignDiners.tsx:9-11 | the capitals of the first two segments' first characters |
| AssignDiners.InitialsOfOneWord | pages/AssignDiners.tsx:9-11 | a single word gives its capital initial |
| AssignDiners.HasAssignments | pages/AssignDiners.tsx:24 | true exactly when some list is non-empty |
| AssignDiners.FinalizeDisabled | pages/AssignDiners.tsx:191 | the button is disabled exactly when there is no diner or every item's list is empty |
| AssignDiners.NoAssignmentsNoBills | pages/AssignDiners.tsx:24 | without assignments every diner's bill is empty and 0 |
| AssignDiners.LookupNonEmpty | pages/AssignDiners.tsx:24 | a key with a non-empty list means there are assignments |
| AssignDiners.ToggleOnEnablesFinalize | pages/AssignDiners.tsx:191 | with a diner present, ticking one on enables "Finalizar Asignación" |
| Confirmation.FormatPhoneNumber | pages/Confirmation.tsx:38-40 | "56" followed by digits only |
| Confirmation.PhoneOfDigits | pages/Confirmation.tsx:39 | a digits-only number maps to "56" and the number |
| Confirmation.PhoneIgnoresSeparators | pages/Confirmation.tsx:39 | separators anywhere in the number are dropped |
| Confirmation.PhoneWithPrefix | pages/Confirmation.tsx:39 | digits typed before the rest of the number stay, right after the code |
| Confirmation.PhoneWithCountryCode | pages/Confirmation.tsx:39 | a number typed with its country code gets the code twice |
| Confirmation.FinalizeArgs | pages/Confirmation.tsx:20-27 | the restaurant or "Cuenta sin nombre" when empty, the bill-wide total, and items, diners and assignments unchanged |
| Confirmation.HandleFinalizeAndSave | pages/Confirmation.tsx:20-31 | the bill becomes the newest history entry, nobody paid, and the bill is kept |
| Confirmation.SavedTotalIgnoresDiners | pages/Confirmation.tsx:23 | the saved total depends on the items only |
| Confirmation.SavedTotalCovered | pages/Confirmation.tsx:23 | with every item assigned the diners owe at least the saved total |
| Confirmation.TotalSumOfThree | pages/Confirmation.tsx:23 | three diners' totals add up term by term |
| Confirmation.SavedTotalBelowDinerTotals | pages/Confirmation.tsx:23 | the saved total can be less than what the diners owe: 1100 against 1104 |
| Confirmation.EnabledPathNeverRedirects | pages/Confirmation.tsx:13-18 | coming through the enabled buttons never redirects, and an empty bill always does |

## Left out

- Floating point: the model computes shares, the 10% tip and the ceilings in exact arithmetic. The JavaScript sums
  `price / k` and multiplies by `0.1` in IEEE-754 doubles, so a rounding artefact there can move a ceiling by one.
- Messaging.LocaleNumber: renders a '.' every three digits for every number of four or more digits. The es-CL locale
  data may leave four-digit numbers ungrouped, a rule of the locale library that is not part of this model.
- Date formatting with `toLocaleDateString`, and the `toISOString` date, which is a parameter.
- Persistence in `localStorage` and the sign-up, login and logout functions, which are an external store. The stored
  user and history are constructor parameters of `AppContext.Session`.
- The camera, the action sheet and the OCR call, which are device and network I/O.
- The sharing side effects: `window.open` with a mailto link, `navigator.share`, the clipboard and
  `encodeURIComponent`. The model stops at the text being shared.
- `Date.now()` and `crypto.randomUUID()`: ids are parameters.
- Rendering, routing, toasts and timers, which hold no logic.
- `getInitials` and `toUpperCase`: only ASCII letters are upper-cased, and a character is one Dafny `char` where
  JavaScript's `n[0]` is one UTF-16 unit.
- Text.Trim: the white-space set is that of ECMA-262, with no Unicode normalisation.
- EditBill.PriceFromInput: `parseInt` is exact, so a digit string beyond 2^53 is read exactly where JavaScript loses
  precision.
- Types.Item: the price is a whole number of pesos, as the price field and `handleAddItem` produce. A fractional
  price from the OCR result is not modelled.
- Messaging.PlainTextBill: the template is modelled as its lines joined by "\n", which is the same string.
- AppContext.Session.Payer and AppContext.Session.DinersAssignedToItem: these read the store through
  `AppContext.PayerInfoOf` and `AppContext.DinersAssignedTo`, and the properties are proved about those.

## Findings

| source | as written | input that shows it | evidently intended | confidence | as-written member | corrected member |
|---|---|---|---|---|---|---|
| pages/BillDetail.tsx:59 | the share message divides each page price, which is already one diner's rounded share, by `sharedWith` again | a 1000 item shared by two: the page lists 500, the shared message lists 250 while its subtotal stays 500 | the message lists each diner's own share, as the page does, so the listed prices add up to the stated subtotal | not executed | BillDetail.ShareMessageBill, BillDetail.ShareMessageDividesTwice | BillDetail.ShareMessageBillFixed, BillDetail.ShareMessageFixedShowsShares |
