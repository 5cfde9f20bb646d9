# Electronic quote form — a verified model

This project models the logic of a single-page quotation form for building-automation products.
A customer fills in line items by searching a fixed product catalog.
They set a discount percentage and enter a billing address and a shipping address.
The shipping address can be declared to be the same as the billing one.
On submit, the form is validated, a summary PDF is generated and saved, a confirmation e-mail is sent, and the form shows the submission number.

The Dafny modules follow the program's structure:

- `Domain` and `ProductCatalog` hold the records (`Product`, `LineItem`, `Address`) and the shipped catalog of 27 products.
- `Seqs`, `Text` and `Numbers` hold the JavaScript primitives the code relies on:
  - `Array.prototype.filter` and `join`, and a `Split` that inverts `join`;
  - `toLowerCase` and `includes`;
  - `parseInt(_, 10)`, the decimal rendering of a number, and the sign-of-dividend `%`.
- `ProductFinder` models the autocomplete of one row:
  - the catalog filter, as a function;
  - the field's state machine, as the class `ProductSearchInput` with one method per event.
- `LineItems` holds the copy-on-write list operations of the form:
  - add, remove, patch, select a product and set a quantity;
  - the totals, the quantity parse and the validation.
- `SummaryPdf` holds the text content of the summary document:
  - the address blocks;
  - the table rows, built by a loop;
  - the submission number, the header line and the file name.
- `QuoteForm` holds the class `App`. Its fields are the form's state. Its methods are the event handlers, including the submit flow, whose outside effects are recorded in `outbox`.

The identifiers from `crypto.randomUUID()` and the clock reading from `Date.now()` are method parameters.
Whether the PDF library or the e-mail call throws is also a parameter of `Submit`.

## Model

| member | source | states |
|---|---|---|
| Domain.SetField | App.tsx:55-58 | Editing one address field sets that field to the new value and leaves the other eight as they were. |
| Domain.SetFieldUnique | App.tsx:55-58 | The edited address is the only address with the new value in that field and the old values in the other eight. |
| Numbers.ParseIntOfNatToString | App.tsx:153 | `parseInt` of a non-negative integer's decimal rendering gives that integer back. |
| Numbers.ParseIntOfNegative | App.tsx:153 | `parseInt` of a minus sign followed by a positive integer's rendering gives the negative integer. |
| Numbers.NatToStringInjective | services/pdfService.ts:38 | Distinct timestamps have distinct decimal renderings. |
| Numbers.JsRem | components/ProductSearchInput.tsx:71-75 | JavaScript `%` with a positive divisor: Euclidean for a non-negative dividend, the dividend itself on `(-n, n)`, and `a - n` on `[n, 2n)`. |
| Text.Lower | components/ProductSearchInput.tsx:44-45 | Lower-casing keeps the length and maps every character through the lower-case mapping. |
| Text.LowerIdempotent | components/ProductSearchInput.tsx:44-45 | Lower-casing a lower-cased string changes nothing. |
| Text.IncludesIff | components/ProductSearchInput.tsx:44-45 | `s.includes(t)` holds exactly when `t` occurs in `s` at some start position. |
| Seqs.Filter | App.tsx:38 | A filtered array is no longer than the input, and holds only input elements that pass the test. |
| Seqs.FilterIsSubsequence | components/ProductSearchInput.tsx:43-46 | `filter` keeps the input order: its result is a subsequence of the input. |
| Seqs.FilterCount | components/ProductSearchInput.tsx:43-46 | Each element occurs in a filtered array as often as in the input if it passes, and never otherwise. |
| Seqs.FilterDropsOne | App.tsx:38 | When exactly one element fails the test, `filter` returns the input with just that element cut out. |
| Seqs.SplitJoin | services/pdfService.ts:25 | One or more parts without the separator, joined with it, split back into exactly those parts. |
| ProductFinder.FilterProducts | components/ProductSearchInput.tsx:37-46 | A term shorter than 3 characters offers nothing. Otherwise every offered product is a catalog product that matches. |
| ProductFinder.FilterProductsExact | components/ProductSearchInput.tsx:43-47 | From 3 characters on, the results are the matching products in catalog order, each listed as often as the catalog lists it, with none missing. |
| ProductFinder.OfferedProductsListed | components/ProductSearchInput.tsx:43-47 | Every offered product is listed in the catalog that was searched. |
| ProductFinder.FilterProductsKeeps | components/ProductSearchInput.tsx:43-47 | From 3 characters on, a catalog product that matches is offered. |
| ProductFinder.FilterProductsCount | components/ProductSearchInput.tsx:43-47 | From 3 characters on, a matching product is offered as often as the catalog lists it, and a non-matching one never. |
| ProductFinder.SkuOccurrenceMatches | components/ProductSearchInput.tsx:44-45 | A product matches when the lower-cased term occurs in its lower-cased SKU. |
| ProductFinder.FilterProductsIgnoresCase | components/ProductSearchInput.tsx:44-45 | The letter case of the term does not change the results. |
| ProductFinder.CatalogListsVC2000WOnce | data/products.ts:3-36 | The shipped catalog lists VC2000-W exactly once. |
| ProductFinder.SearchVC2000 | data/products.ts:6-23 | Searching the shipped catalog for "VC2000" offers VC2000-W and PL-VC2000-S, and VC2000-W exactly once. |
| ProductFinder.NextIndex | components/ProductSearchInput.tsx:69-72 | ArrowDown moves to the next row, wraps from the last row to the first, and goes from "none" (-1) to the first row. |
| ProductFinder.PrevIndex | components/ProductSearchInput.tsx:73-76 | ArrowUp moves to the previous row and wraps from the first row to the last. From "none" it goes to the last row but one, or to row 0 when there is one row. |
| ProductFinder.NavigationInverse | components/ProductSearchInput.tsx:69-76 | On a highlighted row, ArrowUp undoes ArrowDown and vice versa. |
| ProductFinder.ArrowDownExamples | components/ProductSearchInput.tsx:69-76 | Worked index moves on lists of three rows and of one row. |
| ProductFinder.ProductSearchInput.constructor | components/ProductSearchInput.tsx:3-14 | The field searches the shipped catalog. It starts with the row's SKU as its text, no results, closed and with nothing highlighted. |
| ProductFinder.ProductSearchInput.SyncInitialSku | components/ProductSearchInput.tsx:18-20 | A new SKU from the row replaces the text and changes nothing else. |
| ProductFinder.ProductSearchInput.FilterAndShow | components/ProductSearchInput.tsx:36-50 | The results become the filter's output, the list is open exactly when they are non-empty, and the highlight resets to -1 unless the term was too short. |
| ProductFinder.ProductSearchInput.InputChange | components/ProductSearchInput.tsx:52-56 | Typing sets the text and re-filters on it. |
| ProductFinder.ProductSearchInput.Focus | components/ProductSearchInput.tsx:96 | Focus re-filters on the current text and keeps the text. |
| ProductFinder.ProductSearchInput.Select | components/ProductSearchInput.tsx:58-63 | Selecting emits the product, puts its SKU in the field, closes the list and clears the highlight. |
| ProductFinder.ProductSearchInput.KeyDown | components/ProductSearchInput.tsx:65-87 | Keys do nothing while the list is closed or empty. The arrows move the highlight cyclically. Enter selects the highlighted row, or does nothing without one. Escape only closes. Other keys do nothing. Every transition keeps the highlight in range. |
| ProductFinder.ProductSearchInput.ClickOutside | components/ProductSearchInput.tsx:23-28 | A press outside closes the list and changes nothing else. |
| ProductFinder.ProductSearchInput.MouseOver | components/ProductSearchInput.tsx:109 | Hovering a shown row highlights it and changes nothing else. |
| ProductFinder.ProductSearchInput.ClickRow | components/ProductSearchInput.tsx:108 | Clicking a shown row selects its product. |
| LineItems.AddLineItem | App.tsx:33-35 | Adding a row appends exactly one blank row with the fresh id (empty SKU and description, price 0, quantity 1) and keeps every earlier row in place. |
| LineItems.RemoveUndoesAdd | App.tsx:33-39 | Removing a freshly added row gives back the original list. |
| LineItems.RemoveLineItem | App.tsx:37-39 | The rows left after a removal are rows of the list, and none of them has the removed id. |
| LineItems.RemoveLineItemExact | App.tsx:37-39 | Removal keeps the other rows in order and with their multiplicities, and loses none of them. |
| LineItems.RemoveOnlyMatch | App.tsx:37-39 | When exactly one row has the id, removal cuts out that row and keeps the rows before and after it. |
| LineItems.RemoveLineItemLength | App.tsx:37-39 | With distinct ids, removing a present id removes exactly one row. Removing an absent id changes nothing. |
| LineItems.ApplyPatch | App.tsx:43 | The object spread overwrites exactly the fields the patch supplies and keeps the others. |
| LineItems.ApplyPatchLaws | App.tsx:43 | The empty patch changes nothing, and applying a patch twice is the same as applying it once. |
| LineItems.UpdateLineItem | App.tsx:41-45 | Patching by id rewrites exactly the rows with that id and leaves every other row and the length unchanged. |
| LineItems.UpdateLineItemIdempotent | App.tsx:41-45 | Repeating a patch that does not change the id has no further effect. |
| LineItems.SelectProduct | App.tsx:47-53 | Selecting a product sets the row's SKU, description and price together from the product, keeps its id and quantity, and leaves the other rows alone. |
| LineItems.ChangeQuantity | App.tsx:153 | A quantity edit changes only the quantity of the rows with that id. |
| LineItems.AddLineItemKeepsDistinctIds | App.tsx:33-35 | Adding a row under an id no row has keeps the ids distinct. |
| LineItems.AddLineItemKeepsRowsConsistent | App.tsx:33-35 | The added blank row keeps every row blank or showing a catalog product. |
| LineItems.RemoveLineItemKeepsDistinctIds | App.tsx:37-39 | Removal keeps the ids distinct. |
| LineItems.RemoveLineItemKeepsRowsConsistent | App.tsx:37-39 | Removal keeps every row blank or showing a catalog product. |
| LineItems.SelectProductKeepsDistinctIds | App.tsx:47-53 | Selecting a product keeps the ids distinct. |
| LineItems.SelectProductKeepsRowsConsistent | App.tsx:47-53 | Selecting a catalog product keeps every row blank or showing a catalog product. |
| LineItems.ChangeQuantityKeepsDistinctIds | App.tsx:41-45 | A quantity edit keeps the ids distinct. |
| LineItems.ChangeQuantityKeepsRowsConsistent | App.tsx:153 | A quantity edit keeps every row blank or showing a catalog product. |
| LineItems.ParseQuantity | App.tsx:153 | The parsed quantity is never 0. |
| LineItems.ParseQuantityExamples | App.tsx:153 | A typed positive integer is kept and so is a negative one. "0" and an empty field give 1. |
| LineItems.SubtotalAppend | App.tsx:61 | The subtotal of two lists placed end to end is the sum of their subtotals. |
| LineItems.SubtotalNonNegative | App.tsx:61 | Non-negative prices and quantities give a non-negative subtotal. |
| LineItems.SubtotalAddLineItem | App.tsx:33-35 | Adding a blank row does not change the subtotal. |
| LineItems.SubtotalRemoveLineItem | App.tsx:37-39 | The subtotal before a removal is the subtotal after it plus the amounts of the removed rows. |
| LineItems.ComputeTotals | App.tsx:60-67 | The subtotal is the sum of price times quantity. The discount amount is subtotal·pct/100. The total is the subtotal minus the discount amount, which equals subtotal·(100 − pct)/100. An empty list gives all zeros. |
| LineItems.TotalWithinSubtotal | App.tsx:60-67 | With non-negative prices and quantities, a discount between 0 % and 100 % gives a total between 0 and the subtotal. |
| LineItems.TransformerExample | App.tsx:60-67 | Two TR-24 at 45.00 with 10 % off: subtotal 90, discount 9, total 81. |
| LineItems.NoSkuSelectedIff | App.tsx:74 | The `every` check holds exactly when no row has a SKU (also for the empty list). |
| LineItems.Validate | App.tsx:73-81 | The product check comes first: it rejects exactly when no row has a SKU. The e-mail check rejects exactly when some row has a SKU and the billing e-mail is empty. The form passes exactly when neither applies. |
| SummaryPdf.AddressEntries | services/pdfService.ts:16-25 | The title survives first, the city line always survives, and every surviving field is non-empty. |
| SummaryPdf.AddressEntriesExact | services/pdfService.ts:16-25 | The surviving entries keep the fixed order, and a plain field survives exactly when it is non-empty. |
| SummaryPdf.AddressEntriesCount | services/pdfService.ts:16-25 | Each entry survives as often as the array literal holds it when it is truthy, and never otherwise. With the fixed order this determines the surviving list, so two equal non-empty fields both stay. |
| SummaryPdf.OnlyCityLineEntries | services/pdfService.ts:22-25 | When every field except the city line's is empty, only the title and the city line remain. |
| SummaryPdf.AddressTextAsWrittenLosesTitle | services/pdfService.ts:17-25 | As written, every address block starts with the line "[object Object]". |
| SummaryPdf.AddressTextAsWrittenReplacesTitle | services/pdfService.ts:17-25 | The block as written is the corrected block with its title line replaced by "[object Object]"; every later line is the same. |
| SummaryPdf.EmptyBlockAsWritten | services/pdfService.ts:17-25 | As written, an empty address prints "[object Object]" followed by the line ",  ". |
| SummaryPdf.AddressTextLines | services/pdfService.ts:16-25 | With the title printed as text: when no field holds a line break, the block's lines are exactly the surviving entries, the first line is the title and the city line is among them. There is one break between entries and none before the first or after the last. |
| SummaryPdf.TableRow | services/pdfService.ts:60-66 | A row has the five columns: SKU, description, quantity, unit price and line total. |
| SummaryPdf.BuildTableRows | services/pdfService.ts:59-68 | The loop builds one row per line item, in list order. |
| SummaryPdf.SubmissionId | services/pdfService.ts:38 | The number is "SUB-" followed by digits that read back as the timestamp. |
| SummaryPdf.SubmissionIdInjective | services/pdfService.ts:38 | Distinct timestamps give distinct submission numbers. |
| SummaryPdf.GenerateSubmissionPdf | services/pdfService.ts:28-92 | The returned number is the one in the header line and in the file name "Soumission_<number>.pdf". The document carries both address blocks, the column titles, one row per item, the given subtotal and total, and discount amount subtotal·pct/100. |
| QuoteForm.DiscountFromInput | App.tsx:197 | An unreadable discount entry becomes 0; a readable one is kept. |
| QuoteForm.App.constructor | App.tsx:17-25 | The form starts with one blank row, no discount, empty addresses, the box ticked and nothing submitted. |
| QuoteForm.App.AddRow | App.tsx:33-35 | The list becomes the list with a blank row appended, the subtotal stays the same and nothing else changes. |
| QuoteForm.App.RemoveRow | App.tsx:37-39 | The list becomes the list without that id. One row goes when the id is present. The list never empties and nothing else changes. |
| QuoteForm.OfferedProductKeepsRowsConsistent | App.tsx:150 | Choosing a product that the row's search field offers for some term keeps every row blank or showing a catalog product. |
| QuoteForm.App.ProductSelect | App.tsx:47-53 | The row takes the product's SKU, description and price, and nothing else changes. |
| QuoteForm.App.QuantityChange | App.tsx:153 | The row's quantity becomes the parsed value, never 0, and nothing else changes. |
| QuoteForm.App.DiscountChange | App.tsx:197 | The discount becomes the parsed value, or 0, and nothing else changes. |
| QuoteForm.App.BillingFieldChange | App.tsx:27-31 | One billing field changes. While the box is ticked the shipping address follows it. |
| QuoteForm.App.ShippingFieldChange | App.tsx:55-58 | One shipping field changes, possible only while the box is clear. The billing address stays. |
| QuoteForm.App.SameAsBillingChange | App.tsx:27-31 | Ticking the box copies the billing address to shipping. Clearing it keeps the last copy. |
| QuoteForm.App.SavePdf | App.tsx:84-85 | The saved document summarizes the current form under the number for the timestamp: file name "Soumission_<number>.pdf", both address blocks, the column titles, one row per item, and the subtotal, percentage, discount amount and total the form shows. The shipping block uses the billing address while the box is ticked. |
| QuoteForm.App.Submit | App.tsx:73-92 | A failed check rejects with its reason and changes and sends nothing. A PDF failure changes and sends nothing. An e-mail failure leaves only the saved PDF, which the outcome carries. Success saves the PDF summarizing the form, then e-mails the billing address, and the form shows the new number. Only success changes the number. The rows, discount and addresses never change. |
| QuoteForm.App.Confirm | App.tsx:86-88 | The e-mail to the billing address under the new number is recorded; the form then holds that number and counts as submitted. |
| QuoteForm.App.StartNewSubmission | App.tsx:95-103 | One fresh blank row, no discount, empty addresses, the box ticked and no number. Already-sent effects remain. |

Every state-changing method also preserves its class's `Valid()` invariant:

- `ProductSearchInput` keeps the highlight at -1 or on a row of the list whenever the list has rows, the list open only when it has rows, and every row of the list from the catalog it searches. A short term empties the list without resetting the highlight, and Escape hides the list with the highlight kept, as the component does.
- `App` keeps:
  - at least one row, and distinct row ids;
  - shipping equal to billing while the box is ticked;
  - "submitted" exactly when a number is held.

That every row is blank or shows a catalog product is proved of the list operations as lemmas (`LineItems.*KeepsRowsConsistent`), and `QuoteForm.OfferedProductKeepsRowsConsistent` shows that a product handed over by a row's search field keeps it. `App.Valid()` does not carry it: every method of `App` would then reason about the 27-entry catalog constant, which makes their proofs far more expensive for no gain in what they state.

The source's `lineItems.length === 0` test in the submit check is covered by `every`, which holds on an empty list.

## Left out

- Drawing the PDF is not modelled: fonts, sizes, positions, the table theme, the footer and the save dialog are calls into the jsPDF library. The model keeps the text the document is given and the file name.
- The date line of the document is not modelled; it comes from the clock and a locale formatter.
- Currency and date formatting (`Intl.NumberFormat` and `Intl.DateTimeFormat` for fr-CA) are locale-library calls. Money cells hold the amount, not its formatted text.
- Floating point: prices, amounts and the discount are `real`, so totals are exact and not rounded like IEEE doubles.
- Numbers.ParseInt: integers beyond 2^53, where a JavaScript number loses precision, are read exactly.
- QuoteForm.DiscountFromInput: `parseFloat` itself is not modelled. The method receives its result, with `None` for NaN.
- Text.Lower: only the ASCII letters are lower-cased. The catalog's accented letters are all lower-case already, so it is an accented capital typed in the search term that is not folded: "DÉBIT" finds "Débitmètre à insertion pour eau" in the program but not in the model.
- QuoteForm.App.AddRow: it requires that the new id is not already in the list. The source takes it from `crypto.randomUUID()` and does not check for a repeat, which is practically impossible.
- ProductFinder.FilterProducts: the length threshold counts characters, while JavaScript counts UTF-16 code units. The two differ only for characters outside the Basic Multilingual Plane.
- ProductFinder.SearchVC2000: it states that both products are offered and that VC2000-W is offered once. It does not state the complete result list, because deciding the match for each of the 27 catalog entries would make the proof far more expensive than the two facts it checks.
- SummaryPdf.GenerateSubmissionPdf: the document's address blocks are the corrected rendering `AddressText`, not the "[object Object]" text the source passes to the PDF (see Findings). `SummaryPdf.AddressTextAsWrittenReplacesTitle` gives the source's text from it.
- QuoteForm.App.SavePdf: the saved document carries the corrected address blocks, as in `GenerateSubmissionPdf` above.
- QuoteForm.App.Submit: the saved document carries the corrected address blocks, as in `GenerateSubmissionPdf` above.
- services/emailService.ts is not part of this model. The e-mail is an effect that either goes out or fails, chosen by a parameter. The source's simulated send never fails.
- QuoteForm.App.Submit: the check and the send happen as one step. Edits made while the e-mail is awaited are not modelled, and the `alert` and `console` messages are not either.
- React plumbing is not modelled: render cycles, `useMemo`/`useCallback` caching, event listener registration and the DOM `contains` test behind an outside click. The same-as-billing effect is applied within the handler that triggers it.
- QuoteForm.App.ShippingFieldChange requires the box to be clear, because the shipping form is disabled while it is ticked.
- QuoteForm.App.RemoveRow requires more than one row, because the remove button is only rendered then (App.tsx line 158).
- components/AddressForm.tsx is not part of this model; the field edit it reports is `SetField`.
- The rendering of the submitted screen and of the form (JSX) is not modelled.

## Findings

| source | as written | input that shows it | evidently intended | confidence | as-written member | corrected member |
|---|---|---|---|---|---|---|
| services/pdfService.ts:17-25 | The title is put in the array as an object `{content, styles}`. `join('\n')` turns that object into the text "[object Object]", so the block never shows its heading. | Any address, e.g. the empty one, whose block becomes "[object Object]\n,  " | The block's first line is the title text, e.g. "Adresse de Facturation:" | high; not executed | SummaryPdf.AddressTextAsWrittenLosesTitle | SummaryPdf.AddressTextLines |

The document built by `SummaryPdf.GenerateSubmissionPdf` uses the corrected rendering `SummaryPdf.AddressText`. `SummaryPdf.AddressTextAsWrittenReplacesTitle` relates the two renderings: they differ only in the first line.
