# School management fees, currency and inventory — a Dafny model

This project models the logic at the core of a school-management web
application: the fee, invoice, currency and inventory screens. It covers:

- **Currency utility** (`currency.dfy`, module `Currency`).
  - A registry of five currencies (BDT, INR, USD, EUR, GBP).
  - `formatCurrency` and `parseCurrency`. Both fall back to the taka for an unknown code.
  - A directional mock exchange-rate table, with first-match lookup that defaults to 1.
  - `convertCurrency` and the small accessors.
  - Amounts are formatted from an integer count of minor units (`units / 10^decimalPlaces`), so no rounding is involved.
  - Parsing is the string rewriting the source does, followed by a model of JavaScript's `parseFloat` prefix grammar.
- **Currency converter widget** (`converter.dfy`, module `Converter`).
  - Its state fields are held as a class updated in place.
  - The guarded convert and the swap are also given as pure step functions on a state value, so they can be reasoned about.
- **Inventory page** (`inventory.dfy`, module `Inventory`).
  - The item table, the add history and the disbursement history are fields of a class.
  - The add, disburse, edit and stock-adjust handlers validate a form and then replace those lists.
  - Also: the stock-status rule, the search and the pagination buttons.
  - The table invariant is status = `getItemStatus(quantity)`, and, under every handler except add, quantity ≥ 0. It is proved to be kept.
- **Invoice list** (`invoices.dfy`), **student fee portal** (`portal_fees.dfy`) and **admin fee page** (`admin_fees.dfy`).
  - Case-insensitive search with "all" wildcards.
  - Paid/unpaid partition totals.
  - Form validators and the payment dialogs' state.
- **Support modules** for the JavaScript runtime pieces the core relies on:
  - `text.dfy`: `toLowerCase` on ASCII, `includes`, first-occurrence `replace`, global single-character replace, `trim`;
  - `numbers.dfy`: decimal digits, `toString` of integers, a `parseFloat` model;
  - `seqs.dfy`: `filter`, a summing `reduce`, `slice`, `find`;
  - `optional.dfy`: an `Option` type.

Timestamps (`new Date()`) are the caller's `today` parameter. Toasts, dialog
flags that only open and close, and rendering are not modelled.

## Model

| member | source | states |
|---|---|---|
| Currency.GetDefaultCurrency | utils/currency.ts:124-126 | `getDefaultCurrency` is "BDT"; ValidCurrencies states it is a registered code |
| Currency.ValidCurrencies | utils/currency.ts:119-126 | `isValidCurrency` holds exactly for BDT, INR, USD, EUR and GBP; the default currency "BDT" is valid |
| Currency.ConfigForIsWellFormed | utils/currency.ts:11-52 | whatever the code, the configuration used has a non-empty symbol, 2 decimal places, "," and "."; `getCurrencySymbol` agrees with it |
| Currency.UnknownCodeFallsBack | utils/currency.ts:55-116 | for a code outside the registry (other than an inherited object key, see Left out), format and parse behave exactly as for BDT, and `getCurrencySymbol` gives "৳" |
| Currency.IsValidCurrency | utils/currency.ts:119-121 | `isValidCurrency`: the code is a registry key; characterised by ValidCurrencies |
| Currency.ConfigFor | utils/currency.ts:56 | the configuration `formatCurrency` and `parseCurrency` use: the registered one or BDT's; stated by ConfigForIsWellFormed and UnknownCodeFallsBack |
| Currency.GetCurrencySymbol | utils/currency.ts:114-116 | `getCurrencySymbol`: the registered symbol or "৳"; stated by ConfigForIsWellFormed and UnknownCodeFallsBack |
| Currency.FormatCurrency | utils/currency.ts:55-64 | `formatCurrency` of `units / 10^dp`: the symbol, then the grouped fixed-point digits; stated by FormatLayout, GroupingLayout and ParseFormatRoundTrip |
| Currency.FormatMinorUnits | utils/currency.ts:58-61 | the `toLocaleString` call with `decimalPlaces` fixed fraction digits: "-" for a negative amount, the grouped integer part, "." and the fraction digits; stated by FormatLayout, WholeDigits, FractionDigits and GroupingLayout |
| Currency.FormatLayout | utils/currency.ts:55-64 | the output starts with the symbol; "-" directly follows the symbol exactly when the amount is negative; it ends in "." and two digits |
| Currency.WholeDigits | utils/currency.ts:58-61 | the integer part is a non-empty digit string whose value is `m / 10^k` |
| Currency.FractionDigits | utils/currency.ts:58-61 | exactly `decimalPlaces` fraction digits, whose value is `m % 10^k` |
| Currency.UngroupThousands | utils/currency.ts:71-75 | removing every "," undoes the grouping of a digit string |
| Currency.GroupingLayout | utils/currency.ts:58-61 | grouped digits have one "," per full group of three below the first; a "," stands exactly at every fourth position from the end and digits everywhere else, with a digit first, so every group after the first has three digits and the first one to three |
| Currency.FormatZero | utils/currency.ts:55-64 | zero taka formats as "৳0.00" |
| Currency.FormatThousands | utils/currency.ts:55-64 | 123450 cents formats as "$1,234.50" |
| Currency.CleanRemovesLeadingSymbol | utils/currency.ts:71-75 | only the first symbol is stripped: text after it keeps any further symbols and loses only its "," separators before the trim |
| Currency.CleanCurrencyText | utils/currency.ts:70-75 | the text handed to `parseFloat`: first symbol removed, every "," removed, first "." replaced by ".", trimmed; its effect on formatted text is stated by CleanRemovesLeadingSymbol and ParseFormattedAmount |
| Currency.ParseCurrency | utils/currency.ts:67-78 | `parseCurrency`: the parsed number, or 0 for NaN; its meaning is stated by ParseFormatRoundTrip, NoDigitParsesAsZero and UnknownCodeFallsBack |
| Currency.NoDigitParsesAsZero | utils/currency.ts:67-78 | any text with no decimal digit in it, under any code, parses as 0 |
| Currency.NonNumericExamples | utils/currency.ts:67-78 | "abc" and a bare "৳" parse as 0 |
| Numbers.ParseFloat | utils/currency.ts:77 | `Number.parseFloat`: leading whitespace, optional sign, the longest decimal literal with an optional exponent; None for NaN. Stated by NaNExactly, ParseIntToString and ParseFixedPoint |
| Numbers.NaNExactly | utils/currency.ts:77 | `parseFloat` gives NaN exactly when, after leading whitespace and an optional sign, the text starts with neither a digit nor "." followed by a digit |
| Currency.ParseFormattedAmount | utils/currency.ts:55-78 | for any well-formed configuration, cleaning and parsing the formatted text gives back `units / 10^dp`, negative amounts included |
| Currency.ParseFormatRoundTrip | utils/currency.ts:55-78 | `parseCurrency(formatCurrency(x, c), c) == x` for every code that is registered or unknown (inherited object keys aside, see Left out) and every amount with `decimalPlaces` decimals |
| Currency.ParseFormatHundredths | utils/currency.ts:55-78 | the round trip gives `units / 100` for every code |
| Seqs.FirstIndex | utils/currency.ts:102 | the position `find` stops at: the first element passing the test, or -1 when none does; `getExchangeRate` uses it with the test "both codes match" |
| Currency.RateIn | utils/currency.ts:100-104 | the first matching entry's rate, or 1 for none or for a 0 rate; stated by LookupFindsEntry, LookupMissingIsOne and RatesArePositive |
| Currency.GetExchangeRate | utils/currency.ts:100-104 | `getExchangeRate` over the mock table; stated by MockRates and RatesArePositive |
| Currency.ConvertCurrency | utils/currency.ts:106-111 | `convertCurrency`; stated by ConvertIsScaling and ConvertExamples |
| Currency.LookupFindsEntry | utils/currency.ts:100-104 | in a table with distinct pairs, looking up an entry's own pair gives its (non-zero) rate |
| Currency.LookupMissingIsOne | utils/currency.ts:103 | a pair the table does not hold gets rate 1 |
| Currency.MockTableDistinct | utils/currency.ts:89-98 | the mock table has no repeated (from, to) pair |
| Currency.RatesArePositive | utils/currency.ts:89-104 | every looked-up rate is positive |
| Currency.MockRates | utils/currency.ts:89-104 | BDT→USD is 0.0091 and USD→BDT is 110.0, whose product is 1.001 rather than 1; BDT→BDT and USD→EUR are 1 |
| Currency.MockStoredRates | utils/currency.ts:89-104 | the lookup returns the stored 0.0091 for BDT→USD and 110.0 for USD→BDT, the first entries for those pairs |
| Currency.MockMissingRates | utils/currency.ts:89-104 | BDT→BDT and USD→EUR are not in the table, so the lookup gives 1 |
| Currency.ConvertIsScaling | utils/currency.ts:106-111 | conversion is the amount times the looked-up rate, and for equal codes it is the amount itself |
| Currency.ConvertExamples | utils/currency.ts:106-111 | 100 BDT is 0.91 USD, and converting that back gives 100.1 BDT |
| Converter.ConvertStep | components/currency-converter.tsx:40-68 | `handleConvert` on a state value; stated by ConvertGuard, ConvertSuccess and ConvertIdempotent |
| Converter.SwapStep | components/currency-converter.tsx:70-77 | `handleSwapCurrencies` on a state value; stated by SwapExchanges and SwapTwice |
| Converter.ConvertGuard | components/currency-converter.tsx:40-44 | convert reports nothing and changes nothing exactly when the amount is not positive |
| Converter.ConvertSuccess | components/currency-converter.tsx:47-60 | a successful convert stores `getExchangeRate(from, to)` and `amount * rate` (positive), changes nothing else, and reports exactly those values |
| Converter.ConvertIdempotent | components/currency-converter.tsx:40-68 | converting twice with the same inputs equals converting once |
| Converter.SwapExchanges | components/currency-converter.tsx:70-77 | swap exchanges the codes; it exchanges the amounts when the converted amount is positive, and leaves them otherwise |
| Converter.SwapTwice | components/currency-converter.tsx:70-77 | swapping twice restores the pair, and restores the whole state exactly when the converted amount is not positive or the amount is positive |
| Converter.RoundTripDrift | components/currency-converter.tsx:40-77 | convert BDT→USD, swap, convert: the amount comes back multiplied by 1.001 |
| Converter.CurrencyConverter.constructor | components/currency-converter.tsx:26-36 | the initial fields are the default amount and codes, with converted amount and rate 0 |
| Converter.CurrencyConverter.Default | components/currency-converter.tsx:26-36 | the widget with no props: 0 BDT to USD, nothing converted |
| Converter.CurrencyConverter.SetAmount | components/currency-converter.tsx:103 | the amount input replaces the amount and leaves every other field as it was |
| Converter.CurrencyConverter.Convert | components/currency-converter.tsx:40-68 | new fields and report are those of the convert step on the old fields; only the converted amount and the rate may change |
| Converter.CurrencyConverter.Swap | components/currency-converter.tsx:70-77 | new fields are the swap step of the old ones |
| Inventory.InventoryPage.constructor | app/admin/inventory/page.tsx:199-246 | the page starts with the initial items and histories, no selection, an empty search, page 1 and empty forms, and its invariant holds with every item stocked |
| Inventory.GetItemStatus | app/admin/inventory/page.tsx:257-261 | "Out" iff quantity is 0; "Low" iff quantity is non-zero and at most 15, negatives included; "In Stock" iff above 15 |
| Inventory.InitialItemsValid | app/admin/inventory/page.tsx:58-131 | the six initial items have ids 1..6, non-negative stock and consistent status |
| Inventory.InitialHistoriesValid | app/admin/inventory/page.tsx:134-172 | the initial history ids are 1..n without repetition |
| Inventory.PrependFreshId | app/admin/inventory/page.tsx:290-299 | prepending a record numbered length + 1 keeps history ids unique and in 1..n |
| Inventory.FindItem | app/admin/inventory/page.tsx:328 | the lookup gives None exactly when no item has the id, and otherwise an item of the list with that id |
| Inventory.FindBySequentialId | app/admin/inventory/page.tsx:328 | with ids 1..n the lookup of id k is row k - 1, and None out of range |
| Inventory.UpdateWhere | app/admin/inventory/page.tsx:349-360 | the map keeps the length, rewrites every row with the id, and leaves every other row identical |
| Inventory.UpdateSequential | app/admin/inventory/page.tsx:431-444 | with ids 1..n the map rewrites row id - 1 only, or nothing when the id is out of range |
| Inventory.NewItem | app/admin/inventory/page.tsx:273-288 | the new row has the given id, the entered quantity, and the status its quantity calls for |
| Inventory.AddKeepsInvariant | app/admin/inventory/page.tsx:273-288 | appending the new item keeps status consistency and ids 1..n; non-negative stock is kept exactly when the entered quantity is non-negative |
| Inventory.NegativeQuantityAccepted | app/admin/inventory/page.tsx:264-282 | a quantity of -5 passes the guard and is stored with status "Low" |
| Inventory.InventoryPage.AddItem | app/admin/inventory/page.tsx:263-316 | rejected with no change iff a required field is empty; otherwise one item with id length + 1 is appended, one add record with id length + 1 is prepended, and the form is reset |
| Inventory.CheckDisbursement | app/admin/inventory/page.tsx:319-347 | the disbursement guards in the source's order; stated by DisbursementGuards |
| Inventory.DisbursementGuards | app/admin/inventory/page.tsx:319-347 | a complete form is refused as not found iff its id names no row, and succeeds iff the row holds at least the quantity asked |
| Inventory.DisbursementKeepsInvariant | app/admin/inventory/page.tsx:349-360 | a successful disbursement changes only the named row (quantity minus the amount, status recomputed) and keeps stock non-negative, consistent and ids 1..n |
| Inventory.DisbursementKeepsConsistency | app/admin/inventory/page.tsx:349-360 | any disbursement keeps every status consistent and every row with another id identical |
| Inventory.InventoryPage.DisburseItem | app/admin/inventory/page.tsx:318-389 | the guards in their order; on failure nothing changes; on success the rows are updated, one record with id length + 1 naming the found item is prepended, and the form is reset |
| Inventory.CheckEdit | app/admin/inventory/page.tsx:421-432 | the edit guards: a missing required field, then a missing selection over a non-empty table; stated by PrefillRoundTrip and SaveEdit |
| Inventory.EditKeepsStock | app/admin/inventory/page.tsx:431-444 | an edit keeps every row's id, quantity, status and date added, hence all table invariants |
| Inventory.PrefillEditForm | app/admin/inventory/page.tsx:398-406 | the edit form `handleEditItem` fills from an item: name, category, vendor, description and the unit price; stated by PrefillRoundTrip |
| Inventory.InventoryPage.EditItem | app/admin/inventory/page.tsx:398-408 | selects the item and sets the edit form to its pre-filled form |
| Inventory.PrefillRoundTrip | app/admin/inventory/page.tsx:398-408 | the pre-filled form is accepted iff the item's name, category and vendor are non-empty, and saving it unchanged only updates the date |
| Inventory.InventoryPage.ViewDetails | app/admin/inventory/page.tsx:392-395 | selects the item |
| Inventory.InventoryPage.SaveEdit | app/admin/inventory/page.tsx:421-453 | rejected on a missing field or a missing selection over a non-empty table; otherwise the selected id's rows are edited; invariants kept |
| Inventory.CheckStockUpdate | app/admin/inventory/page.tsx:456-476 | the stock-update guards: empty adjustment, missing selection, negative result; stated by StockUpdateKeepsInvariant and SaveStockUpdate |
| Inventory.SetQuantityKeepsInvariant | app/admin/inventory/page.tsx:478-488 | setting a row's quantity keeps consistency and ids, keeps stock non-negative for a non-negative quantity, and leaves other rows alone |
| Inventory.StockUpdateKeepsInvariant | app/admin/inventory/page.tsx:466-488 | an accepted adjustment keeps all table invariants and every row with another id |
| Inventory.StockUpdateRewritesRow | app/admin/inventory/page.tsx:466-488 | with ids 1..n and an unchanged selection, exactly the selected row becomes current quantity + adjustment with its status recomputed |
| Inventory.InventoryPage.UpdateStock | app/admin/inventory/page.tsx:411-418 | selects the item and clears the stock form |
| Inventory.InventoryPage.SaveStockUpdate | app/admin/inventory/page.tsx:456-497 | rejected with no change on an empty adjustment, no selection, or a negative result; otherwise the stock update is applied; invariants kept |
| Inventory.FilteredItems | app/admin/inventory/page.tsx:248-251 | `filteredItems`: the items whose lowercased name or category contains the lowercased term; stated by SearchKeepsMatches |
| Inventory.InventoryPage.SetSearchTerm | app/admin/inventory/page.tsx:967 | the search box replaces the term; the current page is left as it is |
| Inventory.SearchKeepsMatches | app/admin/inventory/page.tsx:248-251 | a row is kept iff its lowercased name or category contains the lowercased term, each kept row as many times as the table holds it, order is kept, and the empty term keeps every row |
| Inventory.TotalPages | app/admin/inventory/page.tsx:253 | the page count is `ceil(n / 5)`: the least count whose pages hold n rows |
| Inventory.PageItems | app/admin/inventory/page.tsx:254-255 | page k ≥ 1 is the filtered rows from position 5(k-1) up to 5k, cut at the end of the list; page 0 shows nothing; a page holds at most 5 rows |
| Inventory.RowOnItsPage | app/admin/inventory/page.tsx:253-255 | filtered row i appears on page i/5 + 1, a page in range, at position i mod 5 |
| Inventory.PageBefore | app/admin/inventory/page.tsx:1033-1037 | Previous never goes below 1, and moves back one page from any later page |
| Inventory.InventoryPage.PreviousPage | app/admin/inventory/page.tsx:1033-1037 | Previous sets the page to `max(page - 1, 1)` and keeps the page state valid |
| Inventory.PageAfterAsWritten | app/admin/inventory/page.tsx:1053-1058 | the Next button as written: nothing when the page equals the page count, else `min(page + 1, totalPages)`; stated by NextPageLeavesRange and PageAfterAgrees |
| Inventory.NextPageLeavesRange | app/admin/inventory/page.tsx:1053-1058 | with no matching rows, Next on page 1 moves to page 0, where no row is shown |
| Inventory.PageAfter | app/admin/inventory/page.tsx:1053-1058 | the clamped Next, from any page ≥ 1, stays within 1..max(page count, 1) |
| Inventory.PageAfterAgrees | app/admin/inventory/page.tsx:1053-1058 | the clamped Next equals the written one whenever there is a page, and advances by one before the last page |
| Inventory.InventoryPage.GoToPage | app/admin/inventory/page.tsx:1041-1049 | a numbered page button moves to a page that shows at least one row |
| Inventory.InventoryPage.NextPage | app/admin/inventory/page.tsx:1053-1058 | Next (with the clamp) keeps the page valid and within the page count |
| Invoices.FilteredInvoices | app/admin/fees/invoices/page.tsx:97-104 | `filteredInvoices`: the invoices passing the search and status tests; stated by FilterKeepsExactly and InitialFilterKeepsAll |
| Invoices.FilterKeepsExactly | app/admin/fees/invoices/page.tsx:97-104 | an invoice is kept iff the lowercased term is in its lowercased student name, id or student id and the status is "all" or equal ignoring case; each kept invoice appears as often as in the table; order is kept |
| Invoices.InitialFilterKeepsAll | app/admin/fees/invoices/page.tsx:93-104 | an empty search with "all" keeps every invoice |
| Invoices.TotalInvoices | app/admin/fees/invoices/page.tsx:140 | the invoice count; bounds the paid count (PaidInvoices) |
| Invoices.PendingAmount | app/admin/fees/invoices/page.tsx:142 | the sum over invoices not exactly "Paid"; stated by AmountsPartition and MockPending |
| Invoices.TotalAmount | app/admin/fees/invoices/page.tsx:143 | the sum over all invoices; stated by AmountsPartition and MockTotal |
| Invoices.PaidInvoices | app/admin/fees/invoices/page.tsx:141 | the paid count never exceeds the invoice count |
| Invoices.AmountsPartition | app/admin/fees/invoices/page.tsx:142-143 | the pending amount plus the paid amount is the total; with non-negative amounts the pending amount is at most the total |
| Invoices.MockTotal | app/admin/fees/invoices/page.tsx:36-89 | four invoices totalling 22300 |
| Invoices.MockPaidCount | app/admin/fees/invoices/page.tsx:141 | two mock invoices are paid |
| Invoices.MockPending | app/admin/fees/invoices/page.tsx:142 | the mock pending amount is 5500 |
| PortalFees.TotalPending | app/portal/fees/page.tsx:176 | the sum of the fees not exactly "Paid"; stated by TotalsPartition and MockPending |
| PortalFees.TotalPaid | app/portal/fees/page.tsx:178 | the sum of the fees exactly "Paid"; stated by TotalsPartition and MockPaid |
| PortalFees.OverdueCount | app/portal/fees/page.tsx:180 | the number of "Overdue" fees; stated by TotalsPartition and MockOverdue |
| PortalFees.PendingCount | app/portal/fees/page.tsx:206 | the "pending payments" count of fees not exactly "Paid"; stated by TotalsPartition and MockPending |
| PortalFees.TotalsPartition | app/portal/fees/page.tsx:176-180 | the pending and paid totals add up to the sum of all fees; the overdue count is at most the pending count, which is at most the number of fees |
| PortalFees.MockPending | app/portal/fees/page.tsx:176-206 | the mock pending total is 7300 over 3 fees |
| PortalFees.MockPaid | app/portal/fees/page.tsx:178 | the mock paid total is 15000 |
| PortalFees.MockOverdue | app/portal/fees/page.tsx:180 | one mock fee is overdue |
| PortalFees.PaymentDialog.constructor | app/portal/fees/page.tsx:115-118 | no fee selected, the dialog closed, no payment method and not processing |
| PortalFees.PaymentDialog.PayNow | app/portal/fees/page.tsx:153-156 | selects the fee and opens the dialog |
| PortalFees.PaymentDialog.SelectPaymentMethod | app/portal/fees/page.tsx:415 | the drop-down sets the payment method |
| PortalFees.PaymentDialog.ProcessPayment | app/portal/fees/page.tsx:158-165 | processing starts iff a payment method is chosen; otherwise `isProcessing` is left as it was |
| PortalFees.PaymentDialog.FinishProcessing | app/portal/fees/page.tsx:167-173 | the timer callback ends processing, closes the dialog and clears method and fee |
| AdminFees.FeesPage.constructor | app/admin/fees/page.tsx:184-218 | the mock lists, empty search with both drop-downs "all", empty forms, every dialog closed and nothing selected |
| AdminFees.FilteredFeeStructures | app/admin/fees/page.tsx:221-232 | `filteredFeeStructures`: the structures passing the search and both drop-downs; stated by FilterKeepsExactly and InitialFiltersKeepAll |
| AdminFees.FilterKeepsExactly | app/admin/fees/page.tsx:221-232 | a fee structure is kept iff its name or category contains the term ignoring case and category and status are "all" or equal ignoring case; each kept structure appears as often as in the table; order is kept |
| AdminFees.InitialFiltersKeepAll | app/admin/fees/page.tsx:184-186 | the initial filters ("", "all", "all") keep every fee structure |
| AdminFees.MockFiltersKeepAll | app/admin/fees/page.tsx:71-116 | the initial filters show the mock table unchanged, all four structures |
| AdminFees.FeesPage.SetFilters | app/admin/fees/page.tsx:221-232 | after the search box and drop-downs change, the table shows exactly the structures passing the new filters, in order |
| AdminFees.FeesPage.CreateFeeStructure | app/admin/fees/page.tsx:234-254 | rejected with no change iff name, category or amount is empty; on success the dialog closes and the form resets with `isRecurring` and `isActive` true |
| AdminFees.FeesPage.EditFeeStructure | app/admin/fees/page.tsx:256-260 | the edit dialog closes and the selection is cleared |
| AdminFees.FeesPage.EditPayment | app/admin/fees/page.tsx:276-286 | selects the payment, sets the form to its pre-filled form and opens the dialog |
| AdminFees.PrefillPaymentForm | app/admin/fees/page.tsx:276-285 | the pre-filled form copies fee type, status and due date, has an amount text that parses back to the amount, and notes defaulting to "" |
| AdminFees.CheckPaymentEdit | app/admin/fees/page.tsx:288-302 | the payment-edit guards: empty fields, then a parsed amount ≤ 0; stated by PaymentEditGuards and PrefillThenSave |
| AdminFees.PaymentEditGuards | app/admin/fees/page.tsx:288-297 | missing fields iff fee type, amount or status is empty; non-positive iff the amount parses to a number ≤ 0 |
| AdminFees.PrefillThenSave | app/admin/fees/page.tsx:276-302 | saving a payment's form unchanged is accepted iff its amount is positive |
| AdminFees.MockPaymentsSave | app/admin/fees/page.tsx:118-158 | every recent payment, the rows whose menu offers Edit (page.tsx:707-739), opens into a form that saves |
| AdminFees.FeesPage.SavePaymentEdit | app/admin/fees/page.tsx:288-302 | the outcome is the guard's; only a saved edit closes the dialog and clears the selection |
| AdminFees.FeesPage.DeletePayment | app/admin/fees/page.tsx:319-322 | selects the payment and opens the confirmation dialog |
| AdminFees.FeesPage.ConfirmDeletePayment | app/admin/fees/page.tsx:324-328 | deleting closes the dialog and clears the selection; the payment list is unchanged |

## Left out

- Rendering, toasts, badges, charts and dialog flags that are not read by any modelled handler (view details, invoice preview, download and print).
- The handlers that only toast: `handleDeleteFeeStructure`, `handleSendReminder`, `handleDownloadInvoice` and `handleSendInvoice` of the invoice list, and `handleGenerateInvoice`. They change no list.
- `toLocaleString` rounding: amounts are integer minor units. The `en-BD` locale is taken to group by three with ",". Indian-style lakh grouping is not modelled.
- Numbers.ParseFloat, Numbers.NaNExactly, Currency.NoDigitParsesAsZero: `parseFloat` also reads "Infinity" after the optional sign. The model reads it as NaN, so text such as "Infinity" parses as 0 here but as Infinity in the source.
- AdminFees.CheckPaymentEdit, AdminFees.PaymentEditGuards: through the same gap, a payment amount of "-Infinity" is read as NaN and the edit is saved, where the source's `parseFloat` gives -Infinity ≤ 0 and rejects it with "Amount must be positive" (app/admin/fees/page.tsx:293-296).
- The NaN results of `parseInt`/`parseFloat` in the modelled forms. Numeric form fields of the inventory and converter are the numbers they parse to, and an empty field is `None` or 0. The payment-edit amount is kept as text, and "no numeric prefix" (NaN) is modelled as passing the `<= 0` guard, as in the source.
- Converter.CurrencyConverter.Swap: the `toString`/`parseFloat` round trip of the amounts is taken as the identity.
- The converter's `useEffect` reconversion on a currency change, and its loading flag.
- The `async` wrappers of the rate lookup and conversion: they are plain functions here.
- The portal's `setTimeout`: its callback is the separate `FinishProcessing` method, with no timing.
- Currency.IsValidCurrency, Currency.ConfigFor, Currency.GetCurrencySymbol, Currency.FormatCurrency, Currency.ParseCurrency, Currency.UnknownCodeFallsBack, Currency.ParseFormatRoundTrip: the registry is a finite map of the five codes. In the source it is a plain object, so a code naming an inherited member ("toString", "constructor", "__proto__") is accepted by `in`, and `SUPPORTED_CURRENCIES[code]` is that member rather than undefined. `formatCurrency(1234.5, "toString")` then gives "undefined1,234.5" with no BDT fallback, and parsing it gives 1. The model treats such codes like any other unknown code.
- Currency.ParseCurrency, Currency.ConvertCurrency, Currency.MockRates, Currency.ConvertExamples, Converter.RoundTripDrift, AdminFees.CheckPaymentEdit, AdminFees.PaymentEditGuards: amounts and rates are exact reals; double rounding and underflow are not modelled. For example 0.91 × 110 is 100.10000000000001 as a double, not 100.1. The BDT→USD→BDT rate product is 1.0010000000000001, not 1.001. `parseFloat("1e-400")` underflows to 0, which the payment-edit guard rejects, while the model saves 10^-400.
- Text.Lower, Inventory.SearchKeepsMatches, Invoices.FilterKeepsExactly, AdminFees.FilterKeepsExactly, AdminFees.FeesPage.SetFilters: `toLowerCase` is modelled for ASCII letters only. A search for "é" finds "É" in the source but not in the model.
- Converter.CurrencyConverter: the `lastUpdated` timestamp the convert handler sets is not a field of the model. It is only displayed.
- Currency.FormatCurrency, Currency.ParseCurrency: the default argument `currencyCode = "BDT"` is not modelled. Every call passes a code, and an omitted code is the call with "BDT".
- Currency.ParseFormatRoundTrip: holds for amounts given as integer minor units only. Text with a symbol twice is shown to keep the second (CleanRemovesLeadingSymbol), but parsing it is not proved to give 0.
- Converter.RoundTripDrift: the convert–swap–convert composition is proved for BDT/USD only, not for every pair.
- The payment gateway, the currency-management, settings and reports pages, and the loading skeleton: they are not part of this model.
- Inventory.InventoryPage.SaveEdit: with no selected item and an empty table the source's map visits nothing and reports success; the model does the same. With rows present the source throws; the model reports `EditNoItemSelected` with no change.
- Inventory.InventoryPage.SaveStockUpdate: the source throws on a missing selection; the model reports `StockNoItemSelected` with no change.
- Inventory.InventoryPage.NextPage: uses the corrected clamp (see Findings).
- The search box does not reset the current page. The model keeps that.

## Findings

| source | as written | input that shows it | evidently intended | confidence | as-written member | corrected member |
|---|---|---|---|---|---|---|
| app/admin/inventory/page.tsx:1056-1057 | Next sets `min(page + 1, totalPages)` and is disabled only when `page === totalPages` | a search matching no item: totalPages is 0, page 1, Next enabled, page becomes 0; after clearing the search, page 0 slices from -5 and shows no rows | Next never leaves 1..max(totalPages, 1) | not executed | Inventory.NextPageLeavesRange | Inventory.PageAfter |
